/**
 * The resource aggregation in `fetchData` of HeroSection.js: each network
 * request is mapped to a category, two JavaScript objects accumulate bytes and
 * request counts per category in one pass, and both objects are then listed in
 * key order (insertion order) as the size and count breakdowns of the report.
 */
module ResourceAggregator {
  import opened Wrappers
  import opened Lighthouse
  import opened JsText

  datatype Category = JavaScript | HTML | CSS | Fonts | Images | Media | Other

  /** The key a category is stored under, and the `name` the breakdowns report. */
  function Name(c: Category): string {
    match c
    case JavaScript => "JavaScript"
    case HTML => "HTML"
    case CSS => "CSS"
    case Fonts => "Fonts"
    case Images => "Images"
    case Media => "Media"
    case Other => "Other"
  }

  /** The Lighthouse resource types `typeMapping` recognises. */
  const MappedTypes: set<string> := {"Script", "Document", "Stylesheet", "Font", "Image", "Media"}

  /** `typeMapping` read backwards: the resource type a category is reached from (none for Other). */
  function SourceType(c: Category): Option<string> {
    match c
    case JavaScript => Some("Script")
    case HTML => Some("Document")
    case CSS => Some("Stylesheet")
    case Fonts => Some("Font")
    case Images => Some("Image")
    case Media => Some("Media")
    case Other => None
  }

  /** `typeMapping[resource.resourceType] || "Other"`. */
  function CategoryOf(resourceType: Option<string>): (c: Category)
    ensures c == Other <==> resourceType.None? || resourceType.value !in MappedTypes
    ensures c != Other ==> SourceType(c) == resourceType
  {
    match resourceType
    case None => Other
    case Some(t) =>
      if t == "Script" then JavaScript
      else if t == "Document" then HTML
      else if t == "Stylesheet" then CSS
      else if t == "Font" then Fonts
      else if t == "Image" then Images
      else if t == "Media" then Media
      else Other
  }

  /** `resource.resourceSize || 0`. */
  function SizeOf(r: ResourceRecord): nat {
    r.resourceSize.GetOr(0)
  }

  /** `json?.lighthouseResult?.audits?.["network-requests"]?.details?.items || []`. */
  function NetworkRequests(json: Option<Payload>): (rs: seq<ResourceRecord>)
    ensures rs != [] ==>
      && json.Some? && json.value.lighthouseResult.Some?
      && json.value.lighthouseResult.value.audits.Some?
      && json.value.lighthouseResult.value.audits.value.networkRequests.Some?
      && json.value.lighthouseResult.value.audits.value.networkRequests.value.details.Some?
      && json.value.lighthouseResult.value.audits.value.networkRequests.value.details.value.items == Some(rs)
    ensures
      && json.Some? && json.value.lighthouseResult.Some?
      && json.value.lighthouseResult.value.audits.Some?
      && json.value.lighthouseResult.value.audits.value.networkRequests.Some?
      && json.value.lighthouseResult.value.audits.value.networkRequests.value.details.Some?
      && json.value.lighthouseResult.value.audits.value.networkRequests.value.details.value.items.Some?
      ==> rs == json.value.lighthouseResult.value.audits.value.networkRequests.value.details.value.items.value
  {
    match json
    case None => []
    case Some(payload) =>
      match payload.lighthouseResult
      case None => []
      case Some(result) =>
        match result.audits
        case None => []
        case Some(audits) =>
          match audits.networkRequests
          case None => []
          case Some(audit) =>
            match audit.details
            case None => []
            case Some(details) => details.items.GetOr([])
  }

  // ---------------------------------------------------------------------------
  // The accumulators: a JavaScript object used as a dictionary, as a value.

  /** An object from category to a number, with its keys in insertion order. */
  datatype Tally = Tally(keys: seq<Category>, totals: map<Category, nat>)

  const EmptyTally := Tally([], map[])

  predicate Distinct(s: seq<Category>) {
    forall i, j :: 0 <= i < j < |s| ==> s[i] != s[j]
  }

  /** The listed keys are exactly the keys that have a total. */
  predicate Listed(t: Tally) {
    forall c :: c in t.totals <==> c in t.keys
  }

  /** Moreover every key is listed once. */
  predicate WellFormed(t: Tally) {
    Distinct(t.keys) && Listed(t)
  }

  /**
   * `acc[key] = (acc[key] || 0) + amount`: an existing key keeps its place in the
   * key order and a new key goes last.
   */
  function Bump(t: Tally, key: Category, amount: nat): (r: Tally)
    requires Listed(t)
    ensures Listed(r)
    ensures key in r.totals && r.totals[key] == (if key in t.totals then t.totals[key] else 0) + amount
    ensures forall c :: c in t.totals && c != key ==> c in r.totals && r.totals[c] == t.totals[c]
    ensures r.keys == if key in t.totals then t.keys else t.keys + [key]
  {
    var previous := if key in t.totals then t.totals[key] else 0;
    Tally(if key in t.totals then t.keys else t.keys + [key], t.totals[key := previous + amount])
  }

  lemma DistinctSnoc(s: seq<Category>, k: Category)
    requires Distinct(s) && k !in s
    ensures Distinct(s + [k])
  {
  }

  /** A `Bump` keeps every key listed once. */
  lemma BumpWellFormed(t: Tally, key: Category, amount: nat)
    requires WellFormed(t)
    ensures WellFormed(Bump(t, key, amount))
  {
    if key !in t.totals {
      DistinctSnoc(t.keys, key);
    }
  }

  /** The mutable object itself, `resourceSizes` or `resourceCounts`. */
  class Accumulator {
    var keys: seq<Category>
    var totals: map<Category, nat>

    ghost predicate Valid()
      reads this
    {
      WellFormed(Tally(keys, totals))
    }

    function Snapshot(): Tally
      reads this
    {
      Tally(keys, totals)
    }

    /** `{}`. */
    constructor ()
      ensures Valid() && Snapshot() == EmptyTally
    {
      keys := [];
      totals := map[];
    }

    /** `this[key] = (this[key] || 0) + amount`, in place. */
    method Add(key: Category, amount: nat)
      requires Valid()
      modifies this
      ensures Valid()
      ensures Snapshot() == Bump(old(Snapshot()), key, amount)
    {
      var previous := if key in totals then totals[key] else 0;
      if key !in totals {
        keys := keys + [key];
      }
      totals := totals[key := previous + amount];
    }
  }

  // ---------------------------------------------------------------------------
  // What the forEach computes, as a function of the records.

  /** Which accumulator: `resourceSizes` adds bytes, `resourceCounts` adds one per request. */
  datatype Measure = Bytes | Requests

  function Amount(r: ResourceRecord, m: Measure): nat {
    match m
    case Bytes => SizeOf(r)
    case Requests => 1
  }

  /** The accumulator after the forEach has visited the records rs, in order. */
  function Tallied(rs: seq<ResourceRecord>, m: Measure): (t: Tally)
    ensures Listed(t)
    decreases |rs|
  {
    if rs == [] then EmptyTally
    else
      var last := rs[|rs| - 1];
      Bump(Tallied(rs[..|rs| - 1], m), CategoryOf(last.resourceType), Amount(last, m))
  }

  /** The category of every record, in input order. */
  function CategoriesOf(rs: seq<ResourceRecord>): (cs: seq<Category>)
    ensures |cs| == |rs|
    ensures forall i :: 0 <= i < |rs| ==> cs[i] == CategoryOf(rs[i].resourceType)
  {
    seq(|rs|, i requires 0 <= i < |rs| => CategoryOf(rs[i].resourceType))
  }

  /** The sum of the amounts of the records in category c. */
  function CategoryTotal(rs: seq<ResourceRecord>, m: Measure, c: Category): nat
    decreases |rs|
  {
    if rs == [] then 0
    else
      var last := rs[|rs| - 1];
      CategoryTotal(rs[..|rs| - 1], m, c) + (if CategoryOf(last.resourceType) == c then Amount(last, m) else 0)
  }

  /** The sum of the amounts of all records. */
  function GrandTotal(rs: seq<ResourceRecord>, m: Measure): nat
    decreases |rs|
  {
    if rs == [] then 0 else GrandTotal(rs[..|rs| - 1], m) + Amount(rs[|rs| - 1], m)
  }

  /** The sum of the totals of the listed keys. */
  function SumOver(keys: seq<Category>, totals: map<Category, nat>): nat
    requires forall c :: c in keys ==> c in totals
    decreases |keys|
  {
    if keys == [] then 0 else SumOver(keys[..|keys| - 1], totals) + totals[keys[|keys| - 1]]
  }

  // ---------------------------------------------------------------------------
  // The breakdowns (`Object.keys(...).map`, lines 82-92).

  const Colors: seq<string> := ["#FF6384", "#36A2EB", "#FFCE56", "#4CAF50", "#FF9800", "#9C27B0", "#607D8B"]

  /**
   * `parseFloat((bytes / 1024).toFixed(2))` as a number of hundredths of a KB:
   * bytes / 1024 rounded to the nearest hundredth, a tie going up, as `toFixed` does.
   * (bytes / 1024 is exact in binary floating point for every safe integer.)
   */
  function KilobyteHundredths(bytes: nat): (h: nat)
    ensures -512 < 1024 * h - 100 * bytes <= 512
  {
    (100 * bytes + 512) / 1024
  }

  /** One entry of `formattedSizeData`; `value` is in hundredths of a KB. */
  datatype SizeEntry = SizeEntry(name: string, value: nat, color: string)

  /** One entry of `formattedCountData`. */
  datatype CountEntry = CountEntry(name: string, count: nat, color: string)

  predicate KeysHaveTotals(t: Tally) {
    forall c :: c in t.keys ==> c in t.totals
  }

  function SizeBreakdown(t: Tally): seq<SizeEntry>
    requires KeysHaveTotals(t)
  {
    seq(|t.keys|, i requires 0 <= i < |t.keys| =>
      SizeEntry(Name(t.keys[i]), KilobyteHundredths(t.totals[t.keys[i]]), Colors[i % |Colors|]))
  }

  function CountBreakdown(t: Tally): seq<CountEntry>
    requires KeysHaveTotals(t)
  {
    seq(|t.keys|, i requires 0 <= i < |t.keys| =>
      CountEntry(Name(t.keys[i]), t.totals[t.keys[i]], Colors[i % |Colors|]))
  }

  /** Lines 61-92 of HeroSection.js: the forEach over the records, then both breakdowns. */
  method AggregateResources(resources: seq<ResourceRecord>)
    returns (sizeData: seq<SizeEntry>, countData: seq<CountEntry>)
    ensures sizeData == SizeBreakdown(Tallied(resources, Bytes))
    ensures countData == CountBreakdown(Tallied(resources, Requests))
  {
    var resourceSizes := new Accumulator();
    var resourceCounts := new Accumulator();
    for i := 0 to |resources|
      invariant resourceSizes != resourceCounts
      invariant resourceSizes.Valid() && resourceCounts.Valid()
      invariant resourceSizes.Snapshot() == Tallied(resources[..i], Bytes)
      invariant resourceCounts.Snapshot() == Tallied(resources[..i], Requests)
    {
      var resource := resources[i];
      var category := CategoryOf(resource.resourceType);
      TalliedPrefix(resources, i, Bytes);
      TalliedPrefix(resources, i, Requests);
      resourceSizes.Add(category, SizeOf(resource));
      resourceCounts.Add(category, 1);
    }
    assert resources[..|resources|] == resources;
    sizeData := SizeBreakdown(resourceSizes.Snapshot());
    countData := CountBreakdown(resourceCounts.Snapshot());
  }

  /** Every category the forEach meets becomes one key, listed once. */
  lemma {:induction false} TalliedWellFormed(rs: seq<ResourceRecord>, m: Measure)
    ensures WellFormed(Tallied(rs, m))
    decreases |rs|
  {
    if rs != [] {
      var last := rs[|rs| - 1];
      TalliedWellFormed(rs[..|rs| - 1], m);
      BumpWellFormed(Tallied(rs[..|rs| - 1], m), CategoryOf(last.resourceType), Amount(last, m));
    }
  }

  // ---------------------------------------------------------------------------
  // Properties of the accumulation.

  /** The total kept for a category is the sum of the amounts of that category's records. */
  lemma {:induction false} TalliedTotals(rs: seq<ResourceRecord>, m: Measure, c: Category)
    requires c in Tallied(rs, m).totals
    ensures Tallied(rs, m).totals[c] == CategoryTotal(rs, m, c)
    decreases |rs|
  {
    var prefix := rs[..|rs| - 1];
    var last := rs[|rs| - 1];
    if c in Tallied(prefix, m).totals {
      TalliedTotals(prefix, m, c);
    } else {
      assert CategoryOf(last.resourceType) == c;
      CategoryTotalAbsent(prefix, m, c);
    }
  }

  /** A category that has no key yet has had no records. */
  lemma {:induction false} CategoryTotalAbsent(rs: seq<ResourceRecord>, m: Measure, c: Category)
    requires c !in Tallied(rs, m).totals
    ensures CategoryTotal(rs, m, c) == 0
    decreases |rs|
  {
    if rs != [] {
      CategoryTotalAbsent(rs[..|rs| - 1], m, c);
    }
  }

  /** Visiting record i after the first i records is one more `Bump`. */
  lemma TalliedPrefix(rs: seq<ResourceRecord>, i: nat, m: Measure)
    requires i < |rs|
    ensures Tallied(rs[..i + 1], m) == Bump(Tallied(rs[..i], m), CategoryOf(rs[i].resourceType), Amount(rs[i], m))
  {
    assert rs[..i + 1][..i] == rs[..i];
  }

  /** Bytes and counts are keyed alike: both objects list the same categories in the same order. */
  lemma {:induction false} KeysIndependentOfMeasure(rs: seq<ResourceRecord>)
    ensures Tallied(rs, Bytes).keys == Tallied(rs, Requests).keys
    decreases |rs|
  {
    if rs != [] {
      KeysIndependentOfMeasure(rs[..|rs| - 1]);
    }
  }

  /** The first index of c in cs is pinned down by its two defining properties. */
  lemma IndexOfIs(cs: seq<Category>, c: Category, i: nat)
    requires i < |cs| && cs[i] == c
    requires forall k :: 0 <= k < i ==> cs[k] != c
    ensures IndexOf(cs, c) == i
  {
  }

  /** keys lists exactly the categories of cs, each once, in the order of their first occurrence in cs. */
  predicate FirstSeenOrder(keys: seq<Category>, cs: seq<Category>) {
    && (forall c :: c in keys <==> c in cs)
    && (forall i, j :: 0 <= i < j < |keys| ==>
          keys[i] in cs && keys[j] in cs && IndexOf(cs, keys[i]) < IndexOf(cs, keys[j]))
  }

  /** Appending one occurrence of c keeps the order: c goes last if it is new, and nothing moves otherwise. */
  lemma FirstSeenStep(keys: seq<Category>, cs: seq<Category>, c: Category)
    requires FirstSeenOrder(keys, cs)
    ensures FirstSeenOrder(if c in keys then keys else keys + [c], cs + [c])
  {
    var extended := cs + [c];
    forall x | x in cs ensures x in extended && IndexOf(extended, x) == IndexOf(cs, x) {
      IndexOfIs(extended, x, IndexOf(cs, x));
    }
    if c !in keys {
      var after := keys + [c];
      IndexOfIs(extended, c, |cs|);
      forall i, j | 0 <= i < j < |after|
        ensures after[i] in extended && after[j] in extended
             && IndexOf(extended, after[i]) < IndexOf(extended, after[j])
      {
        assert after[i] == keys[i] && after[i] in cs;
        if j < |keys| {
          assert after[j] == keys[j];
        }
      }
    }
  }

  /** The keys are the records' categories, in the order in which they are first met. */
  lemma {:induction false} KeysInFirstSeenOrder(rs: seq<ResourceRecord>, m: Measure)
    ensures FirstSeenOrder(Tallied(rs, m).keys, CategoriesOf(rs))
    decreases |rs|
  {
    if rs != [] {
      var prefix := rs[..|rs| - 1];
      var k := CategoryOf(rs[|rs| - 1].resourceType);
      var before := Tallied(prefix, m);
      KeysInFirstSeenOrder(prefix, m);
      CategoriesOfPrefix(rs);
      TalliedKeysStep(rs, m);
      FirstSeenStep(before.keys, CategoriesOf(prefix), k);
    }
  }

  lemma CategoriesOfPrefix(rs: seq<ResourceRecord>)
    requires rs != []
    ensures CategoriesOf(rs) == CategoriesOf(rs[..|rs| - 1]) + [CategoryOf(rs[|rs| - 1].resourceType)]
  {
    assert CategoriesOf(rs)[..|rs| - 1] == CategoriesOf(rs[..|rs| - 1]);
  }

  /** The last record adds its category to the keys exactly when the key is new. */
  lemma TalliedKeysStep(rs: seq<ResourceRecord>, m: Measure)
    requires rs != []
    ensures var before := Tallied(rs[..|rs| - 1], m).keys;
            var k := CategoryOf(rs[|rs| - 1].resourceType);
      Tallied(rs, m).keys == if k in before then before else before + [k]
  {
  }

  /** Updating a key that is not listed does not change the sum over the listed keys. */
  lemma {:induction false} SumOverUnlisted(keys: seq<Category>, totals: map<Category, nat>, k: Category, v: nat)
    requires forall c :: c in keys ==> c in totals
    requires k !in keys
    ensures SumOver(keys, totals[k := v]) == SumOver(keys, totals)
    decreases |keys|
  {
    if keys != [] {
      SumOverUnlisted(keys[..|keys| - 1], totals, k, v);
    }
  }

  /** Adding n to the total of a key listed once adds n to the sum over the keys. */
  lemma {:induction false} SumOverIncrease(keys: seq<Category>, totals: map<Category, nat>, k: Category, n: nat)
    requires forall c :: c in keys ==> c in totals
    requires Distinct(keys) && k in keys && k in totals
    ensures SumOver(keys, totals[k := totals[k] + n]) == SumOver(keys, totals) + n
    decreases |keys|
  {
    var prefix := keys[..|keys| - 1];
    if keys[|keys| - 1] == k {
      assert k !in prefix;
      SumOverUnlisted(prefix, totals, k, totals[k] + n);
    } else {
      assert k in prefix;
      SumOverIncrease(prefix, totals, k, n);
    }
  }

  /** Conservation: the per-category totals add up to the total over all records. */
  lemma {:induction false} TalliedSum(rs: seq<ResourceRecord>, m: Measure)
    ensures SumOver(Tallied(rs, m).keys, Tallied(rs, m).totals) == GrandTotal(rs, m)
    decreases |rs|
  {
    if rs != [] {
      var prefix := rs[..|rs| - 1];
      var last := rs[|rs| - 1];
      TalliedSum(prefix, m);
      TalliedWellFormed(prefix, m);
      SumAfterBump(Tallied(prefix, m), CategoryOf(last.resourceType), Amount(last, m));
    }
  }

  /** A `Bump` by a adds a to the sum over the keys, whether the key is new or not. */
  lemma SumAfterBump(t: Tally, k: Category, a: nat)
    requires WellFormed(t)
    ensures SumOver(Bump(t, k, a).keys, Bump(t, k, a).totals) == SumOver(t.keys, t.totals) + a
  {
    if k in t.totals {
      SumAfterBumpListed(t, k, a);
    } else {
      SumAfterBumpNew(t, k, a);
    }
  }

  lemma SumAfterBumpListed(t: Tally, k: Category, a: nat)
    requires WellFormed(t) && k in t.totals
    ensures SumOver(Bump(t, k, a).keys, Bump(t, k, a).totals) == SumOver(t.keys, t.totals) + a
  {
    var totals := t.totals[k := t.totals[k] + a];
    assert Bump(t, k, a) == Tally(t.keys, totals);
    SumOverIncrease(t.keys, t.totals, k, a);
  }

  lemma SumAfterBumpNew(t: Tally, k: Category, a: nat)
    requires WellFormed(t) && k !in t.totals
    ensures SumOver(Bump(t, k, a).keys, Bump(t, k, a).totals) == SumOver(t.keys, t.totals) + a
  {
    var totals := t.totals[k := a];
    assert Bump(t, k, a) == Tally(t.keys + [k], totals);
    SumAfterNewKey(t.keys, t.totals, k, a);
  }

  /** Appending a new key with total a adds a to the sum. */
  lemma SumAfterNewKey(keys: seq<Category>, totals: map<Category, nat>, k: Category, a: nat)
    requires forall c :: c in keys ==> c in totals
    requires k !in keys
    ensures SumOver(keys + [k], totals[k := a]) == SumOver(keys, totals) + a
  {
    var extended := keys + [k];
    assert extended[..|extended| - 1] == keys;
    SumOverUnlisted(keys, totals, k, a);
  }

  lemma {:induction false} GrandTotalOfRequests(rs: seq<ResourceRecord>)
    ensures GrandTotal(rs, Requests) == |rs|
    decreases |rs|
  {
    if rs != [] {
      GrandTotalOfRequests(rs[..|rs| - 1]);
    }
  }

  /**
   * The summed sizes of the records, an absent size counting as 0, added up from
   * the front: a definition independent of the one-record-at-a-time fold.
   */
  function TotalSize(rs: seq<ResourceRecord>): nat {
    if rs == [] then 0 else rs[0].resourceSize.GetOr(0) + TotalSize(rs[1..])
  }

  lemma {:induction false} TotalSizeSnoc(rs: seq<ResourceRecord>, r: ResourceRecord)
    ensures TotalSize(rs + [r]) == TotalSize(rs) + r.resourceSize.GetOr(0)
    decreases |rs|
  {
    if rs == [] {
      assert [] + [r] == [r];
      assert [r][1..] == [];
    } else {
      assert (rs + [r])[0] == rs[0];
      assert (rs + [r])[1..] == rs[1..] + [r];
      TotalSizeSnoc(rs[1..], r);
    }
  }

  lemma {:induction false} GrandTotalOfBytes(rs: seq<ResourceRecord>)
    ensures GrandTotal(rs, Bytes) == TotalSize(rs)
    decreases |rs|
  {
    if rs != [] {
      var prefix := rs[..|rs| - 1];
      GrandTotalOfBytes(prefix);
      TotalSizeSnoc(prefix, rs[|rs| - 1]);
      assert prefix + [rs[|rs| - 1]] == rs;
    }
  }

  /** The counts add up to the number of records and the byte totals to the summed sizes. */
  lemma Conservation(rs: seq<ResourceRecord>)
    ensures SumOver(Tallied(rs, Requests).keys, Tallied(rs, Requests).totals) == |rs|
    ensures SumOver(Tallied(rs, Bytes).keys, Tallied(rs, Bytes).totals) == TotalSize(rs)
  {
    TalliedSum(rs, Requests);
    GrandTotalOfRequests(rs);
    TalliedSum(rs, Bytes);
    GrandTotalOfBytes(rs);
  }

  /** A record without a size (or of size 0) still counts once, and adds no bytes. */
  lemma UnsizedRecordCounted(rs: seq<ResourceRecord>, r: ResourceRecord)
    requires SizeOf(r) == 0
    ensures var c := CategoryOf(r.resourceType);
      && c in Tallied(rs + [r], Requests).totals
      && Tallied(rs + [r], Requests).totals[c]
         == (if c in Tallied(rs, Requests).totals then Tallied(rs, Requests).totals[c] else 0) + 1
      && c in Tallied(rs + [r], Bytes).totals
      && Tallied(rs + [r], Bytes).totals[c]
         == (if c in Tallied(rs, Bytes).totals then Tallied(rs, Bytes).totals[c] else 0)
  {
    var all := rs + [r];
    assert all[..|rs|] == rs && all[..|rs| + 1] == all && all[|rs|] == r;
    TalliedPrefix(all, |rs|, Requests);
    TalliedPrefix(all, |rs|, Bytes);
  }

  // ---------------------------------------------------------------------------
  // Properties of the breakdowns.

  /** A sequence of distinct categories drawn from `allowed` is no longer than `allowed` is large. */
  lemma {:induction false} DistinctWithin(s: seq<Category>, allowed: set<Category>)
    requires Distinct(s)
    requires forall i :: 0 <= i < |s| ==> s[i] in allowed
    ensures |s| <= |allowed|
    decreases |s|
  {
    if s != [] {
      var x := s[|s| - 1];
      var rest := allowed - {x};
      assert allowed == rest + {x};
      DistinctWithin(s[..|s| - 1], rest);
    }
  }

  /** There are seven categories, so an object keyed by distinct categories has at most seven keys. */
  lemma AtMostSevenKeys(s: seq<Category>)
    requires Distinct(s)
    ensures |s| <= 7
  {
    var all := {JavaScript, HTML, CSS, Fonts, Images, Media, Other};
    assert |all| == 7;
    forall i | 0 <= i < |s| ensures s[i] in all {
      match s[i]
      case JavaScript =>
      case HTML =>
      case CSS =>
      case Fonts =>
      case Images =>
      case Media =>
      case Other =>
    }
    DistinctWithin(s, all);
  }

  lemma ColorsDistinct(i: nat, j: nat)
    requires i < j < |Colors|
    ensures Colors[i] != Colors[j]
  {
    if i == 0 {
      assert j == 1 ==> Colors[i][1] != Colors[j][1];
      assert j == 2 ==> Colors[i][3] != Colors[j][3];
      assert j == 3 ==> Colors[i][1] != Colors[j][1];
      assert j == 4 ==> Colors[i][3] != Colors[j][3];
      assert j == 5 ==> Colors[i][1] != Colors[j][1];
      assert j == 6 ==> Colors[i][1] != Colors[j][1];
    } else if i == 1 {
      assert j == 2 ==> Colors[i][1] != Colors[j][1];
      assert j == 3 ==> Colors[i][1] != Colors[j][1];
      assert j == 4 ==> Colors[i][1] != Colors[j][1];
      assert j == 5 ==> Colors[i][1] != Colors[j][1];
      assert j == 6 ==> Colors[i][1] != Colors[j][1];
    } else if i == 2 {
      assert j == 3 ==> Colors[i][1] != Colors[j][1];
      assert j == 4 ==> Colors[i][3] != Colors[j][3];
      assert j == 5 ==> Colors[i][1] != Colors[j][1];
      assert j == 6 ==> Colors[i][1] != Colors[j][1];
    } else if i == 3 {
      assert j == 4 ==> Colors[i][1] != Colors[j][1];
      assert j == 5 ==> Colors[i][1] != Colors[j][1];
      assert j == 6 ==> Colors[i][1] != Colors[j][1];
    } else if i == 4 {
      assert j == 5 ==> Colors[i][1] != Colors[j][1];
      assert j == 6 ==> Colors[i][1] != Colors[j][1];
    } else if i == 5 {
      assert j == 6 ==> Colors[i][1] != Colors[j][1];
    } else if i == 6 {
    }
  }

  /** Within one breakdown, names are distinct and so are colours; entry i has colour COLORS[i mod 7]. */
  lemma SizeBreakdownShape(t: Tally)
    requires WellFormed(t)
    ensures var entries := SizeBreakdown(t);
      && |entries| == |t.keys| <= 7
      && (forall i :: 0 <= i < |entries| ==> entries[i].name == Name(t.keys[i]) && entries[i].color == Colors[i % 7])
      && (forall i, j :: 0 <= i < j < |entries| ==> entries[i].name != entries[j].name && entries[i].color != entries[j].color)
  {
    AtMostSevenKeys(t.keys);
    var entries := SizeBreakdown(t);
    forall i, j | 0 <= i < j < |entries|
      ensures entries[i].name != entries[j].name && entries[i].color != entries[j].color
    {
      EntriesDiffer(t, i, j);
    }
  }

  lemma EntriesDiffer(t: Tally, i: nat, j: nat)
    requires WellFormed(t) && i < j < |t.keys| <= 7
    ensures SizeBreakdown(t)[i].name != SizeBreakdown(t)[j].name
    ensures SizeBreakdown(t)[i].color != SizeBreakdown(t)[j].color
  {
    SizeEntryAt(t, i);
    SizeEntryAt(t, j);
    NamesDiffer(t.keys[i], t.keys[j]);
    ColorsDistinct(i, j);
  }

  lemma SizeEntryAt(t: Tally, i: nat)
    requires WellFormed(t) && i < |t.keys| <= 7
    ensures SizeBreakdown(t)[i].name == Name(t.keys[i]) && SizeBreakdown(t)[i].color == Colors[i]
  {
  }

  /** Two categories have two names. */
  lemma NamesDiffer(a: Category, b: Category)
    requires a != b
    ensures Name(a) != Name(b)
  {
  }

  /**
   * The two breakdowns list the same category names in the same order, each name
   * once, and give entry i the colour COLORS[i mod 7]; with at most seven
   * categories no two categories share a colour.
   */
  lemma BreakdownsAgree(rs: seq<ResourceRecord>)
    ensures var sizes := SizeBreakdown(Tallied(rs, Bytes));
            var counts := CountBreakdown(Tallied(rs, Requests));
      && |sizes| == |counts| <= 7
      && (forall i :: 0 <= i < |sizes| ==> sizes[i].name == counts[i].name && sizes[i].color == counts[i].color)
      && (forall i, j :: 0 <= i < j < |sizes| ==> sizes[i].name != sizes[j].name && sizes[i].color != sizes[j].color)
  {
    KeysIndependentOfMeasure(rs);
    TalliedWellFormed(rs, Bytes);
    SizeBreakdownShape(Tallied(rs, Bytes));
  }

  /** Entry i of the breakdowns reports category keys[i]: its byte total in KB and its number of records. */
  lemma BreakdownValues(rs: seq<ResourceRecord>, i: nat)
    requires i < |Tallied(rs, Bytes).keys|
    ensures var c := Tallied(rs, Bytes).keys[i];
      && c in CategoriesOf(rs)
      && i < |Tallied(rs, Requests).keys| && Tallied(rs, Requests).keys[i] == c
      && SizeBreakdown(Tallied(rs, Bytes))[i].value == KilobyteHundredths(CategoryTotal(rs, Bytes, c))
      && CountBreakdown(Tallied(rs, Requests))[i].count == CategoryTotal(rs, Requests, c)
  {
    var c := Tallied(rs, Bytes).keys[i];
    KeysIndependentOfMeasure(rs);
    KeysInFirstSeenOrder(rs, Bytes);
    TalliedTotals(rs, Bytes, c);
    TalliedTotals(rs, Requests, c);
  }

  /** The sum of the `count` fields of a count breakdown. */
  function SumCounts(entries: seq<CountEntry>): nat {
    if entries == [] then 0 else SumCounts(entries[..|entries| - 1]) + entries[|entries| - 1].count
  }

  lemma {:induction false} CountBreakdownSum(t: Tally)
    requires KeysHaveTotals(t)
    ensures SumCounts(CountBreakdown(t)) == SumOver(t.keys, t.totals)
    decreases |t.keys|
  {
    if t.keys != [] {
      var shorter := Tally(t.keys[..|t.keys| - 1], t.totals);
      CountBreakdownSum(shorter);
      assert CountBreakdown(t)[..|t.keys| - 1] == CountBreakdown(shorter);
    }
  }

  /** The count breakdown accounts for every record exactly once. */
  lemma CountsAddUpToRecords(rs: seq<ResourceRecord>)
    ensures SumCounts(CountBreakdown(Tallied(rs, Requests))) == |rs|
  {
    CountBreakdownSum(Tallied(rs, Requests));
    Conservation(rs);
  }

  /** No records (in particular a payload without network-requests items) gives two empty breakdowns. */
  lemma NoRecordsNoBreakdown(json: Option<Payload>)
    requires NetworkRequests(json) == []
    ensures SizeBreakdown(Tallied(NetworkRequests(json), Bytes)) == []
    ensures CountBreakdown(Tallied(NetworkRequests(json), Requests)) == []
  {
  }

  const Script1024 := ResourceRecord(Some("Script"), Some(1024))

  /** Two records tallied in order: two `Bump`s. */
  lemma TalliedOne(x: ResourceRecord, m: Measure)
    ensures Tallied([x], m) == Bump(EmptyTally, CategoryOf(x.resourceType), Amount(x, m))
  {
    assert [x][..0] == [];
  }

  lemma TalliedTwo(x: ResourceRecord, y: ResourceRecord, m: Measure)
    ensures Tallied([x, y], m) == Bump(Tallied([x], m), CategoryOf(y.resourceType), Amount(y, m))
  {
    assert [x, y][..1] == [x];
  }

  /** The same category twice is one key holding the sum. */
  lemma SameKeyTwice(one: Tally, two: Tally, k: Category, x: nat, y: nat)
    requires one == Bump(EmptyTally, k, x)
    requires Listed(one) && two == Bump(one, k, y)
    ensures two.keys == [k] && two.totals[k] == x + y
  {
    NewKeyStep(EmptyTally, k, x);
    ListedKeyStep(one, k, y);
  }

  /** Bumping a listed key keeps the key order and adds the amount to its total. */
  lemma ListedKeyStep(t: Tally, k: Category, a: nat)
    requires Listed(t) && k in t.keys
    ensures Bump(t, k, a).keys == t.keys && Bump(t, k, a).totals[k] == t.totals[k] + a
  {
  }

  /** Two 1 KB scripts make one JavaScript key holding both. */
  lemma TwoScriptsTallied(m: Measure)
    ensures Tallied([Script1024, Script1024], m).keys == [JavaScript]
    ensures Tallied([Script1024, Script1024], m).totals[JavaScript] == 2 * Amount(Script1024, m)
  {
    TalliedOne(Script1024, m);
    TalliedTwo(Script1024, Script1024, m);
    assert CategoryOf(Script1024.resourceType) == JavaScript;
    SameKeyTwice(Tallied([Script1024], m), Tallied([Script1024, Script1024], m), JavaScript, Amount(Script1024, m), Amount(Script1024, m));
  }

  /** Two 1 KB scripts: one JavaScript entry of 2.00 KB, first colour. */
  lemma TwoScriptsSizeExample()
    ensures SizeBreakdown(Tallied([Script1024, Script1024], Bytes)) == [SizeEntry("JavaScript", 200, "#FF6384")]
  {
    var t := Tallied([Script1024, Script1024], Bytes);
    TwoScriptsTallied(Bytes);
    assert Amount(Script1024, Bytes) == 1024;
    SingleKeySizes(t, JavaScript);
    assert KilobyteHundredths(2048) == 200;
  }

  lemma SingleKeySizes(t: Tally, c: Category)
    requires t.keys == [c] && c in t.totals
    ensures SizeBreakdown(t) == [SizeEntry(Name(c), KilobyteHundredths(t.totals[c]), Colors[0])]
  {
  }

  /** Two scripts: one JavaScript entry counting 2. */
  lemma TwoScriptsCountExample()
    ensures CountBreakdown(Tallied([Script1024, Script1024], Requests)) == [CountEntry("JavaScript", 2, "#FF6384")]
  {
    var t := Tallied([Script1024, Script1024], Requests);
    TwoScriptsTallied(Requests);
    SingleKeyCounts(t, JavaScript);
  }

  lemma SingleKeyCounts(t: Tally, c: Category)
    requires t.keys == [c] && c in t.totals
    ensures CountBreakdown(t) == [CountEntry(Name(c), t.totals[c], Colors[0])]
  {
  }

  /** Bumping a key not yet listed appends it, with the amount as its total. */
  lemma NewKeyStep(t: Tally, k: Category, a: nat)
    requires Listed(t) && k !in t.keys
    ensures Bump(t, k, a).keys == t.keys + [k] && Bump(t, k, a).totals[k] == a
    ensures forall c :: c in t.totals ==> c in Bump(t, k, a).totals && Bump(t, k, a).totals[c] == t.totals[c]
  {
  }

  /** Two different categories, one after the other, become two keys in that order. */
  lemma TwoNewKeys(one: Tally, two: Tally, j: Category, k: Category, x: nat, y: nat)
    requires j != k
    requires one == Bump(EmptyTally, j, x)
    requires Listed(one) && two == Bump(one, k, y)
    ensures two.keys == [j, k] && two.totals[j] == x && two.totals[k] == y
  {
    NewKeyStep(EmptyTally, j, x);
    NewKeyStep(one, k, y);
  }

  const Script200000 := ResourceRecord(Some("Script"), Some(200000))
  const Document5000 := ResourceRecord(Some("Document"), Some(5000))

  /** A script met before a document: JavaScript is listed before HTML. */
  lemma ScriptThenDocumentTallied(m: Measure)
    ensures Tallied([Script200000, Document5000], m).keys == [JavaScript, HTML]
    ensures Tallied([Script200000, Document5000], m).totals[JavaScript] == Amount(Script200000, m)
    ensures Tallied([Script200000, Document5000], m).totals[HTML] == Amount(Document5000, m)
  {
    TalliedOne(Script200000, m);
    TalliedTwo(Script200000, Document5000, m);
    assert CategoryOf(Script200000.resourceType) == JavaScript;
    assert CategoryOf(Document5000.resourceType) == HTML;
    TwoNewKeys(Tallied([Script200000], m), Tallied([Script200000, Document5000], m), JavaScript, HTML,
               Amount(Script200000, m), Amount(Document5000, m));
  }

  /** The order is the order met, not the alphabet: JavaScript (195.31 KB) comes before HTML (4.88 KB). */
  lemma ScriptThenDocumentSizeExample()
    ensures SizeBreakdown(Tallied([Script200000, Document5000], Bytes))
         == [SizeEntry("JavaScript", 19531, "#FF6384"), SizeEntry("HTML", 488, "#36A2EB")]
  {
    var t := Tallied([Script200000, Document5000], Bytes);
    ScriptThenDocumentTallied(Bytes);
    assert Amount(Script200000, Bytes) == 200000 && Amount(Document5000, Bytes) == 5000;
    TwoKeySizes(t, JavaScript, HTML);
    assert KilobyteHundredths(200000) == 19531 && KilobyteHundredths(5000) == 488;
  }

  lemma TwoKeySizes(t: Tally, c: Category, d: Category)
    requires t.keys == [c, d] && c in t.totals && d in t.totals
    ensures SizeBreakdown(t) == [SizeEntry(Name(c), KilobyteHundredths(t.totals[c]), Colors[0]),
                                 SizeEntry(Name(d), KilobyteHundredths(t.totals[d]), Colors[1])]
  {
  }

  /** The same two records: one request each, in the same order. */
  lemma ScriptThenDocumentCountExample()
    ensures CountBreakdown(Tallied([Script200000, Document5000], Requests))
         == [CountEntry("JavaScript", 1, "#FF6384"), CountEntry("HTML", 1, "#36A2EB")]
  {
    var t := Tallied([Script200000, Document5000], Requests);
    ScriptThenDocumentTallied(Requests);
    TwoKeyCounts(t, JavaScript, HTML);
  }

  lemma TwoKeyCounts(t: Tally, c: Category, d: Category)
    requires t.keys == [c, d] && c in t.totals && d in t.totals
    ensures CountBreakdown(t) == [CountEntry(Name(c), t.totals[c], Colors[0]), CountEntry(Name(d), t.totals[d], Colors[1])]
  {
  }
}
