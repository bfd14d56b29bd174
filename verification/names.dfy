/** `getGenericName`: an item name with its tier word removed, used by the search box. */
module Names {
  import opened Wrappers

  /** The tier words, in the order they are tried. */
  const TierPrefixes: seq<string> := [
    "Rough", "Simple", "Sturdy", "Fine", "Exquisite", "Peerless", "Ornate", "Pristine", "Magnificent", "Flawless",
    "Flint", "Ferralith", "Pyrelite", "Emarium", "Elenvar", "Luminite", "Rathium", "Aurumite", "Celestium", "Umbracite", "Astralite",
    "Beginner's", "Novice's", "Novice", "Essential", "Proficient", "Advanced", "Comprehensive",
    "Plain", "Savory", "Zesty", "Succulent", "Ambrosial",
    "Basic", "Infused", "Magnificient", "Automata's"
  ]

  /** What is searched for: a tier word followed by one space. */
  function Needle(tier: string): string {
    tier + " "
  }

  predicate OccursAt(s: string, needle: string, i: nat) {
    i + |needle| <= |s| && s[i..i + |needle|] == needle
  }

  /** `s.indexOf(needle)` searching from `from`: the first position where `needle` occurs. */
  function IndexOf(s: string, needle: string, from: nat): (r: Option<nat>)
    requires from <= |s|
    decreases |s| - from
    ensures r.Some? ==> from <= r.value <= |s| && OccursAt(s, needle, r.value)
    ensures r.Some? ==> forall j :: from <= j < r.value ==> !OccursAt(s, needle, j)
    ensures r.None? ==> forall j :: from <= j <= |s| ==> !OccursAt(s, needle, j)
  {
    if OccursAt(s, needle, from) then Some(from)
    else if from == |s| then None
    else IndexOf(s, needle, from + 1)
  }

  /** The first tier word of `tiers`, from position `k` on, that occurs in `name`: its
      index in the list and the position of its first occurrence. */
  function FirstTier(name: string, tiers: seq<string>, k: nat): (r: Option<(nat, nat)>)
    requires k <= |tiers|
    decreases |tiers| - k
    ensures r.Some? ==> k <= r.value.0 < |tiers| && IndexOf(name, Needle(tiers[r.value.0]), 0) == Some(r.value.1)
    ensures r.Some? ==> forall j :: k <= j < r.value.0 ==> IndexOf(name, Needle(tiers[j]), 0).None?
    ensures r.None? ==> forall j :: k <= j < |tiers| ==> IndexOf(name, Needle(tiers[j]), 0).None?
  {
    if k == |tiers| then None
    else
      match IndexOf(name, Needle(tiers[k]), 0)
      case Some(i) => Some((k, i))
      case None => FirstTier(name, tiers, k + 1)
  }

  /** The loop of `getGenericName` over a list of tier words. */
  function Strip(name: string, tiers: seq<string>): (g: string)
    ensures |g| <= |name|
  {
    if |name| == 0 then ""
    else
      match FirstTier(name, tiers, 0)
      case None => name
      case Some((k, i)) => name[..i] + name[i + |Needle(tiers[k])|..]
  }

  /** `getGenericName(name)`. */
  function GenericName(name: string): string {
    Strip(name, TierPrefixes)
  }

  /** The stripped name is `name` with exactly one "tier " cut out -- that of the first
      tier word of the list that occurs, at its first occurrence -- or the name itself
      when no tier word occurs. Putting the cut back gives the name again. */
  lemma StripCut(name: string, tiers: seq<string>)
    ensures var g := Strip(name, tiers);
      match FirstTier(name, tiers, 0)
      case None => g == name
      case Some((k, i)) =>
        && i <= |g|
        && g[..i] + Needle(tiers[k]) + g[i..] == name
        && forall j, p :: 0 <= j < k && 0 <= p <= |name| ==> !OccursAt(name, Needle(tiers[j]), p)
  {
    match FirstTier(name, tiers, 0)
    case None =>
    case Some((k, i)) =>
      Reinsert(name, Needle(tiers[k]), i);
      forall j, p | 0 <= j < k && 0 <= p <= |name| ensures !OccursAt(name, Needle(tiers[j]), p) {
        assert IndexOf(name, Needle(tiers[j]), 0).None?;
      }
  }

  /** Cutting an occurrence of `n` out of `s` and putting it back gives `s`. */
  lemma Reinsert(s: string, n: string, i: nat)
    requires OccursAt(s, n, i)
    ensures var g := s[..i] + s[i + |n|..];
      i <= |g| && g[..i] + n + g[i..] == s
  {
    var g := s[..i] + s[i + |n|..];
    assert g[..i] == s[..i];
    assert g[i..] == s[i + |n|..];
    assert s == s[..i] + s[i..i + |n|] + s[i + |n|..];
  }

  /** A name in which no tier word occurs is its own stripped name. */
  lemma NoTierFixed(name: string, tiers: seq<string>)
    requires forall k, p :: 0 <= k < |tiers| && 0 <= p <= |name| ==> !OccursAt(name, Needle(tiers[k]), p)
    ensures Strip(name, tiers) == name
  {
    if |name| > 0 {
      match FirstTier(name, tiers, 0)
      case None =>
      case Some((k, i)) =>
        assert OccursAt(name, Needle(tiers[k]), i);
    }
  }

  /** The tier words are tried in list order, not left to right in the name: "Rough"
      comes before "Fine" in the list, so it is the one removed. */
  lemma GenericNameListOrder()
    ensures GenericName("Fine Rough Cloth") == "Fine Cloth"
  {
    var name := "Fine Rough Cloth";
    var n := "Rough ";
    assert TierPrefixes[0] == "Rough";
    assert Needle("Rough") == n;
    forall p | 0 <= p < 5 ensures !OccursAt(name, n, p) {
      assert name[p] != 'R';
      assert name[p..p + 6][0] == name[p];
    }
    assert OccursAt(name, n, 5) by {
      forall k | 0 <= k < 6 ensures name[5..11][k] == n[k] {
      }
    }
    IndexOfFirst(name, n, 0, 5);
    assert FirstTier(name, TierPrefixes, 0) == Some((0, 5));
  }

  /** `indexOf` finds an occurrence exactly when it is the first from `from` on. */
  lemma {:induction false} IndexOfFirst(s: string, needle: string, from: nat, i: nat)
    requires from <= i <= |s| && OccursAt(s, needle, i)
    requires forall j :: from <= j < i ==> !OccursAt(s, needle, j)
    ensures IndexOf(s, needle, from) == Some(i)
    decreases i - from
  {
    if from < i {
      IndexOfFirst(s, needle, from + 1, i);
    }
  }
}
