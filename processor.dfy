/** The analysis half of ticket_processor.py: status counts, the device classifier, the
    contact-information buckets and the summary picks. A ticket is the JSON object the API
    returns, read as a map from field names to string values. */
module Processor {
  import opened Wrappers
  import opened Text
  import opened Tally

  /** A ticket as the processor sees it. */
  type Record = map<string, string>

  /** `ticket.get(key)` is truthy: present and non-empty. */
  predicate Truthy(r: Record, key: string) {
    key in r && r[key] != []
  }

  /** The positions of the tickets whose `key` is truthy. */
  ghost function TruthyPositions(records: seq<Record>, key: string): set<nat> {
    set i: nat | i < |records| && Truthy(records[i], key)
  }

  /** Dropping the last ticket drops at most its own position. */
  lemma TruthyPositionsStep(records: seq<Record>, key: string)
    requires records != []
    ensures var n := |records| - 1;
      && n !in TruthyPositions(records[..n], key)
      && TruthyPositions(records, key)
         == TruthyPositions(records[..n], key) + (if Truthy(records[n], key) then {n} else {})
  {
    var n := |records| - 1;
    assert forall i :: 0 <= i < n ==> records[..n][i] == records[i];
  }

  /** `[ticket.get(key, '') for ticket in tickets if ticket.get(key)]` */
  function TruthyValues(records: seq<Record>, key: string): (vs: seq<string>)
    ensures |vs| <= |records|
    ensures forall i :: 0 <= i < |vs| ==> vs[i] != []
  {
    if records == [] then []
    else
      var n := |records| - 1;
      TruthyValues(records[..n], key) + (if Truthy(records[n], key) then [records[n][key]] else [])
  }

  /** The `i`-th ticket's `key` is truthy and holds `v`. */
  predicate ValueAt(records: seq<Record>, key: string, i: int, v: string) {
    0 <= i < |records| && Truthy(records[i], key) && records[i][key] == v
  }

  /** There is one value per ticket whose `key` is truthy. */
  lemma {:induction false} TruthyValuesCount(records: seq<Record>, key: string)
    ensures |TruthyValues(records, key)| == |TruthyPositions(records, key)|
    decreases |records|
  {
    if records != [] {
      var n := |records| - 1;
      TruthyValuesCount(records[..n], key);
      TruthyPositionsStep(records, key);
    }
  }

  /** The values are exactly those of the tickets whose `key` is truthy. */
  lemma {:induction false} TruthyValuesMembers(records: seq<Record>, key: string)
    ensures forall v :: v in TruthyValues(records, key) <==> exists i :: ValueAt(records, key, i, v)
    decreases |records|
  {
    if records != [] {
      var n := |records| - 1;
      var init := records[..n];
      var tail := if Truthy(records[n], key) then [records[n][key]] else [];
      var vs := TruthyValues(records, key);
      assert vs == TruthyValues(init, key) + tail;
      TruthyValuesMembers(init, key);
      forall v | v in vs ensures exists i :: ValueAt(records, key, i, v) {
        if v in TruthyValues(init, key) {
          var i :| ValueAt(init, key, i, v);
          assert ValueAt(records, key, i, v);
        } else {
          assert ValueAt(records, key, n, v);
        }
      }
      forall v | exists i :: ValueAt(records, key, i, v) ensures v in vs {
        var i :| ValueAt(records, key, i, v);
        if i < n {
          assert ValueAt(init, key, i, v);
        } else {
          assert v in tail;
        }
      }
    }
  }

  /** The positions of the tickets whose `key` is truthy and holds `v`. */
  ghost function ValuePositions(records: seq<Record>, key: string, v: string): set<nat> {
    set i: nat | i < |records| && ValueAt(records, key, i, v)
  }

  /** Dropping the last ticket drops at most its own position. */
  lemma ValuePositionsStep(records: seq<Record>, key: string, v: string)
    requires records != []
    ensures var n := |records| - 1;
      && n !in ValuePositions(records[..n], key, v)
      && ValuePositions(records, key, v)
         == ValuePositions(records[..n], key, v) + (if ValueAt(records, key, n, v) then {n} else {})
  {
    var n := |records| - 1;
    assert forall i :: 0 <= i < n ==> records[..n][i] == records[i];
  }

  /** Each value occurs once per ticket whose `key` is truthy and holds it. */
  lemma {:induction false} TruthyValuesMultiplicity(records: seq<Record>, key: string, v: string)
    ensures multiset(TruthyValues(records, key))[v] == |ValuePositions(records, key, v)|
    decreases |records|
  {
    if records != [] {
      var n := |records| - 1;
      var init := records[..n];
      var tail := if Truthy(records[n], key) then [records[n][key]] else [];
      assert TruthyValues(records, key) == TruthyValues(init, key) + tail;
      assert multiset(tail)[v] == if ValueAt(records, key, n, v) then 1 else 0;
      TruthyValuesMultiplicity(init, key, v);
      ValuePositionsStep(records, key, v);
    }
  }

  /** `ticket.get('status', 'unknown')` */
  function StatusOf(r: Record): string {
    if "status" in r then r["status"] else "unknown"
  }

  function StatusesOf(records: seq<Record>): (ss: seq<string>)
    ensures |ss| == |records|
    ensures forall i :: 0 <= i < |records| ==> ss[i] == StatusOf(records[i])
  {
    if records == [] then [] else [StatusOf(records[0])] + StatusesOf(records[1..])
  }

  /** `_analyze_status_distribution(...)["counts"]`: how many tickets carry each status, with
      `unknown` for a ticket without one; the counts add up to the number of tickets. */
  function StatusCounts(records: seq<Record>): (c: seq<Entry<string>>)
    ensures Sum(c) == |records|
    ensures forall s :: Lookup(c, s) == multiset(StatusesOf(records))[s]
    ensures DistinctKeys(c) && Positive(c)
  {
    Count(StatusesOf(records))
  }

  /** A ticket without a status is counted under `unknown`. */
  lemma MissingStatusIsUnknown(records: seq<Record>, i: nat)
    requires i < |records| && "status" !in records[i]
    ensures Lookup(StatusCounts(records), "unknown") >= 1
  {
    assert StatusesOf(records)[i] == "unknown";
  }

  /** The device types `_analyze_devices` recognises; `Name()` is the string it appends. */
  datatype DeviceType = IPhone | Android | Laptop | Desktop {
    function Name(): string {
      match this
      case IPhone => "iPhone"
      case Android => "Android"
      case Laptop => "Laptop"
      case Desktop => "Desktop"
    }
  }

  datatype Brand = Apple | Samsung | Dell | HP | Lenovo {
    function Name(): string {
      match this
      case Apple => "Apple"
      case Samsung => "Samsung"
      case Dell => "Dell"
      case HP => "HP"
      case Lenovo => "Lenovo"
    }
  }

  const IPhoneTerms: seq<string> := ["iphone", "ios"]
  const AndroidTerms: seq<string> := ["android", "samsung", "galaxy"]
  const LaptopTerms: seq<string> := ["laptop", "dell", "hp", "lenovo", "macbook"]
  const DesktopTerms: seq<string> := ["desktop", "pc"]

  /** `any(term in device for term in terms)` */
  predicate ContainsAny(d: string, terms: seq<string>) {
    exists i :: 0 <= i < |terms| && Contains(d, terms[i])
  }

  /** What one pass of the loop appends for a lowercased device name. */
  datatype Classification = Classification(deviceType: Option<DeviceType>, brand: Option<Brand>)

  /** The first-match classification of a lowercased device name: the first term list that
      matches decides the type, and a brand is recorded only together with a type. */
  function Classify(d: string): (r: Classification)
    ensures r.brand.Some? ==> r.deviceType.Some?
    ensures r.deviceType == Some(IPhone) <==> ContainsAny(d, IPhoneTerms)
    ensures r.deviceType == Some(Android) <==> !ContainsAny(d, IPhoneTerms) && ContainsAny(d, AndroidTerms)
    ensures r.deviceType == Some(Laptop) <==>
      !ContainsAny(d, IPhoneTerms) && !ContainsAny(d, AndroidTerms) && ContainsAny(d, LaptopTerms)
    ensures r.deviceType.None? <==>
      !ContainsAny(d, IPhoneTerms) && !ContainsAny(d, AndroidTerms) && !ContainsAny(d, LaptopTerms)
      && !ContainsAny(d, DesktopTerms)
    ensures r.deviceType == Some(IPhone) ==> r.brand == Some(Apple)
    ensures r.deviceType == Some(Android) ==> (r.brand == Some(Samsung) <==> Contains(d, "samsung"))
    ensures r.deviceType == Some(Android) ==> r.brand.None? || r.brand == Some(Samsung)
    ensures r.brand == Some(Samsung) ==> r.deviceType == Some(Android)
    ensures r.brand == Some(Dell) || r.brand == Some(HP) || r.brand == Some(Lenovo) ==> r.deviceType == Some(Laptop)
    ensures r.deviceType == Some(Desktop) ==> r.brand.None?
    // A laptop's brand: the first of dell, hp, lenovo and macbook the name contains.
    ensures r.deviceType == Some(Laptop) ==> (r.brand == Some(Dell) <==> Contains(d, "dell"))
    ensures r.deviceType == Some(Laptop) ==>
      (r.brand == Some(HP) <==> !Contains(d, "dell") && Contains(d, "hp"))
    ensures r.deviceType == Some(Laptop) ==>
      (r.brand == Some(Lenovo) <==> !Contains(d, "dell") && !Contains(d, "hp") && Contains(d, "lenovo"))
    ensures r.deviceType == Some(Laptop) ==>
      (r.brand == Some(Apple) <==>
        !Contains(d, "dell") && !Contains(d, "hp") && !Contains(d, "lenovo") && Contains(d, "macbook"))
    ensures r.deviceType == Some(Laptop) ==>
      (r.brand.None? <==>
        !Contains(d, "dell") && !Contains(d, "hp") && !Contains(d, "lenovo") && !Contains(d, "macbook"))
  {
    if ContainsAny(d, IPhoneTerms) then Classification(Some(IPhone), Some(Apple))
    else if ContainsAny(d, AndroidTerms) then
      Classification(Some(Android), if Contains(d, "samsung") then Some(Samsung) else None)
    else if ContainsAny(d, LaptopTerms) then
      var brand :=
        if Contains(d, "dell") then Some(Dell)
        else if Contains(d, "hp") then Some(HP)
        else if Contains(d, "lenovo") then Some(Lenovo)
        else if Contains(d, "macbook") then Some(Apple)
        else None;
      Classification(Some(Laptop), brand)
    else if ContainsAny(d, DesktopTerms) then Classification(Some(Desktop), None)
    else Classification(None, None)
  }

  /** The order of the term lists decides: an HP desktop counts as a laptop, because "hp"
      is a laptop term and the laptop test comes first. */
  lemma HpDesktopIsLaptop(d: string)
    requires d == "hp desktop"
    ensures Classify(d) == Classification(Some(Laptop), Some(HP))
  {
    assert !ContainsAny(d, IPhoneTerms) by {
      CharAbsentNotContained(d, "iphone", 0);
      CharAbsentNotContained(d, "ios", 0);
    }
    assert !ContainsAny(d, AndroidTerms) by {
      CharAbsentNotContained(d, "android", 0);
      CharAbsentNotContained(d, "samsung", 1);
      CharAbsentNotContained(d, "galaxy", 0);
    }
    assert Contains(d, LaptopTerms[2]) by {
      assert d[0..2] == "hp";
      ContainsAt(d, "hp", 0);
    }
    assert !Contains(d, "dell") by {
      CharAbsentNotContained(d, "dell", 2);
    }
  }

  /** `[s.lower() for s in ...]` */
  function LowerAll(vs: seq<string>): (ls: seq<string>)
    ensures |ls| == |vs|
    ensures forall i :: 0 <= i < |vs| ==> ls[i] == Lower(vs[i])
  {
    if vs == [] then [] else [Lower(vs[0])] + LowerAll(vs[1..])
  }

  /** `devices`: the lowercased names of the tickets that have one. */
  function DevicesOf(records: seq<Record>): seq<string> {
    LowerAll(TruthyValues(records, "deviceName"))
  }

  /** The `device_types` list after the loop has seen `ds`: one type per recognised device. */
  function TypesOf(ds: seq<string>): (ts: seq<DeviceType>)
    ensures |ts| <= |ds|
  {
    if ds == [] then []
    else
      var c := Classify(ds[|ds| - 1]);
      TypesOf(ds[..|ds| - 1]) + (if c.deviceType.Some? then [c.deviceType.value] else [])
  }

  /** The `brands` list after the loop has seen `ds`; never longer than the type list, since a
      brand is appended only next to a type. */
  function BrandsOf(ds: seq<string>): (bs: seq<Brand>)
    ensures |bs| <= |TypesOf(ds)|
  {
    if ds == [] then []
    else
      var c := Classify(ds[|ds| - 1]);
      BrandsOf(ds[..|ds| - 1]) + (if c.brand.Some? then [c.brand.value] else [])
  }

  /** What one pass of the loop appends to `device_types`. */
  function TypeOpt(d: string): Option<DeviceType> {
    Classify(d).deviceType
  }

  /** What one pass of the loop appends to `brands`. */
  function BrandOpt(d: string): Option<Brand> {
    Classify(d).brand
  }

  /** The positions of the devices classified as `t`. */
  ghost function TypePositions(ds: seq<string>, t: DeviceType): set<nat> {
    Hits(ds, TypeOpt, t)
  }

  /** The positions of the devices whose brand is recorded as `b`. */
  ghost function BrandPositions(ds: seq<string>, b: Brand): set<nat> {
    Hits(ds, BrandOpt, b)
  }

  /** What a loop over `xs` appends when each element contributes `f(x)`, if anything. */
  function Collected<T, U>(xs: seq<T>, f: T -> Option<U>): (ys: seq<U>)
    ensures |ys| <= |xs|
  {
    if xs == [] then []
    else
      var o := f(xs[|xs| - 1]);
      Collected(xs[..|xs| - 1], f) + (if o.Some? then [o.value] else [])
  }

  /** The positions where `f` yields `y`. */
  ghost function Hits<T, U>(xs: seq<T>, f: T -> Option<U>, y: U): set<nat> {
    set i: nat | i < |xs| && f(xs[i]) == Some(y)
  }

  /** Dropping the last element drops at most its own position. */
  lemma HitsStep<T, U>(xs: seq<T>, f: T -> Option<U>, y: U)
    requires xs != []
    ensures var n := |xs| - 1;
      && n !in Hits(xs[..n], f, y)
      && Hits(xs, f, y) == Hits(xs[..n], f, y) + (if f(xs[n]) == Some(y) then {n} else {})
  {
    var n := |xs| - 1;
    assert forall i :: 0 <= i < n ==> xs[..n][i] == xs[i];
  }

  /** Each value is collected once per position where `f` yields it. */
  lemma {:induction false} CollectedMultiplicity<T, U>(xs: seq<T>, f: T -> Option<U>, y: U)
    ensures multiset(Collected(xs, f))[y] == |Hits(xs, f, y)|
    decreases |xs|
  {
    if xs != [] {
      var n := |xs| - 1;
      AppendOptionCount(Collected(xs[..n], f), f(xs[n]), y);
      CollectedMultiplicity(xs[..n], f, y);
      HitsStep(xs, f, y);
    }
  }

  /** Appending what an `Option` holds adds one occurrence of that value and of no other. */
  lemma AppendOptionCount<T>(xs: seq<T>, o: Option<T>, x: T)
    ensures multiset(xs + (if o.Some? then [o.value] else []))[x]
      == multiset(xs)[x] + (if o == Some(x) then 1 else 0)
  {
  }

  /** The type list is what the loop collects with `TypeOpt`. */
  lemma {:induction false} TypesOfCollected(ds: seq<string>)
    ensures TypesOf(ds) == Collected(ds, TypeOpt)
    decreases |ds|
  {
    if ds != [] {
      TypesOfCollected(ds[..|ds| - 1]);
    }
  }

  /** The brand list is what the loop collects with `BrandOpt`. */
  lemma {:induction false} BrandsOfCollected(ds: seq<string>)
    ensures BrandsOf(ds) == Collected(ds, BrandOpt)
    decreases |ds|
  {
    if ds != [] {
      BrandsOfCollected(ds[..|ds| - 1]);
    }
  }

  /** Each type occurs once per device classified as it. */
  lemma TypesMultiplicity(ds: seq<string>, t: DeviceType)
    ensures multiset(TypesOf(ds))[t] == |TypePositions(ds, t)|
  {
    TypesOfCollected(ds);
    CollectedMultiplicity(ds, TypeOpt, t);
  }

  /** Each brand occurs once per device recorded with it. */
  lemma BrandsMultiplicity(ds: seq<string>, b: Brand)
    ensures multiset(BrandsOf(ds))[b] == |BrandPositions(ds, b)|
  {
    BrandsOfCollected(ds);
    CollectedMultiplicity(ds, BrandOpt, b);
  }

  /** `Counter(device_types)[t]` and `Counter(brands)[b]` are the numbers of devices
      classified as `t` and recorded with brand `b`. */
  lemma DeviceCounts(ds: seq<string>)
    ensures forall t :: Lookup(Count(TypesOf(ds)), t) == |TypePositions(ds, t)|
    ensures forall b :: Lookup(Count(BrandsOf(ds)), b) == |BrandPositions(ds, b)|
  {
    forall t ensures Lookup(Count(TypesOf(ds)), t) == |TypePositions(ds, t)| {
      TypesMultiplicity(ds, t);
    }
    forall b ensures Lookup(Count(BrandsOf(ds)), b) == |BrandPositions(ds, b)| {
      BrandsMultiplicity(ds, b);
    }
  }

  /** One more device extends both lists by what its classification records. */
  lemma ClassifyStep(ds: seq<string>, i: nat)
    requires i < |ds|
    ensures var c := Classify(ds[i]);
      && TypesOf(ds[..i + 1]) == TypesOf(ds[..i]) + (if c.deviceType.Some? then [c.deviceType.value] else [])
      && BrandsOf(ds[..i + 1]) == BrandsOf(ds[..i]) + (if c.brand.Some? then [c.brand.value] else [])
  {
    assert ds[..i + 1][..i] == ds[..i];
  }

  /** `_analyze_devices(...)` without `most_common_devices`. */
  datatype DeviceAnalysis = DeviceAnalysis(
    totalDevices: nat,
    deviceTypes: seq<Entry<DeviceType>>,
    brands: seq<Entry<Brand>>)

  /** The classification loop: the total is the number of tickets with a device name, the
      type counts stay within it, and the brand counts within the type counts. */
  method AnalyzeDevices(records: seq<Record>) returns (a: DeviceAnalysis)
    ensures a.totalDevices == |TruthyValues(records, "deviceName")|
    ensures a.totalDevices == |TruthyPositions(records, "deviceName")|
    ensures a.deviceTypes == Count(TypesOf(DevicesOf(records)))
    ensures a.brands == Count(BrandsOf(DevicesOf(records)))
    ensures Sum(a.brands) <= Sum(a.deviceTypes) <= a.totalDevices
    ensures forall t :: Lookup(a.deviceTypes, t) == |TypePositions(DevicesOf(records), t)|
    ensures forall b :: Lookup(a.brands, b) == |BrandPositions(DevicesOf(records), b)|
  {
    TruthyValuesCount(records, "deviceName");
    var devices := DevicesOf(records);
    DeviceCounts(devices);
    var deviceTypes: seq<DeviceType> := [];
    var brands: seq<Brand> := [];
    var i := 0;
    while i < |devices|
      invariant 0 <= i <= |devices|
      invariant deviceTypes == TypesOf(devices[..i])
      invariant brands == BrandsOf(devices[..i])
    {
      ClassifyStep(devices, i);
      var c := Classify(devices[i]);
      if c.deviceType.Some? {
        deviceTypes := deviceTypes + [c.deviceType.value];
      }
      if c.brand.Some? {
        brands := brands + [c.brand.value];
      }
      i := i + 1;
    }
    assert devices[..i] == devices;
    a := DeviceAnalysis(|devices|, Count(deviceTypes), Count(brands));
  }

  /** `email.split('@')[1]` for an e-mail containing '@': the text after the first '@', up to
      the next '@' or the end. */
  function SecondField(s: string): (r: string)
    requires '@' in s
    ensures '@' !in r
    ensures var i := IndexOf(s, '@');
      && i + 1 + |r| <= |s| && s[i + 1..i + 1 + |r|] == r
      && (i + 1 + |r| == |s| || s[i + 1 + |r|] == '@')
  {
    var i := IndexOf(s, '@');
    var rest := s[i + 1..];
    var j := IndexOf(rest, '@');
    if j == -1 then rest else rest[..j]
  }

  /** The positions of the e-mails that contain '@'. */
  ghost function AtPositions(emails: seq<string>): set<nat> {
    set k: nat | k < |emails| && '@' in emails[k]
  }

  /** Dropping the last e-mail drops at most its own position. */
  lemma AtPositionsStep(emails: seq<string>)
    requires emails != []
    ensures var n := |emails| - 1;
      && n !in AtPositions(emails[..n])
      && AtPositions(emails) == AtPositions(emails[..n]) + (if '@' in emails[n] then {n} else {})
  {
    var n := |emails| - 1;
    assert forall k :: 0 <= k < n ==> emails[..n][k] == emails[k];
  }

  /** `email.split('@')[1].lower()` */
  function Domain(email: string): (d: string)
    requires '@' in email
    ensures '@' !in d
  {
    Lower(SecondField(email))
  }

  /** The domain list after the loop has seen `emails`. */
  function DomainsOf(emails: seq<string>): (ds: seq<string>)
    ensures |ds| <= |emails|
    ensures forall k :: 0 <= k < |ds| ==> '@' !in ds[k]
  {
    if emails == [] then []
    else
      var n := |emails| - 1;
      var e := emails[n];
      DomainsOf(emails[..n]) + (if '@' in e then [Domain(e)] else [])
  }

  /** The `k`-th e-mail contains '@' and its domain is `d`. */
  predicate DomainAt(emails: seq<string>, k: int, d: string) {
    0 <= k < |emails| && '@' in emails[k] && d == Domain(emails[k])
  }

  /** One domain is recorded per e-mail containing '@'. */
  lemma {:induction false} DomainsOfCount(emails: seq<string>)
    ensures |DomainsOf(emails)| == |AtPositions(emails)|
    decreases |emails|
  {
    if emails != [] {
      var n := |emails| - 1;
      DomainsOfCount(emails[..n]);
      AtPositionsStep(emails);
    }
  }

  /** Every recorded domain is `email.split('@')[1].lower()` of an e-mail containing '@'. */
  lemma {:induction false} DomainsOfSound(emails: seq<string>)
    ensures forall d :: d in DomainsOf(emails) ==> exists k :: DomainAt(emails, k, d)
    decreases |emails|
  {
    if emails != [] {
      var n := |emails| - 1;
      var init := emails[..n];
      var e := emails[n];
      var tail := if '@' in e then [Domain(e)] else [];
      var ds := DomainsOf(emails);
      assert ds == DomainsOf(init) + tail;
      DomainsOfSound(init);
      forall d | d in ds ensures exists k :: DomainAt(emails, k, d) {
        if d in DomainsOf(init) {
          var k :| DomainAt(init, k, d);
          assert init[k] == emails[k];
          assert DomainAt(emails, k, d);
        } else {
          assert DomainAt(emails, n, d);
        }
      }
    }
  }

  /** The positions of the e-mails that contain '@' and have domain `d`. */
  ghost function DomainPositions(emails: seq<string>, d: string): set<nat> {
    set k: nat | k < |emails| && DomainAt(emails, k, d)
  }

  /** `e.split('@')[1].lower()` when `e` contains '@', and nothing otherwise. */
  function DomainOpt(e: string): (o: Option<string>)
    ensures o.Some? <==> '@' in e
  {
    if '@' in e then Some(Domain(e)) else None
  }

  /** The domain list is what the loop collects with `DomainOpt`. */
  lemma {:induction false} DomainsOfCollected(emails: seq<string>)
    ensures DomainsOf(emails) == Collected(emails, DomainOpt)
    decreases |emails|
  {
    if emails != [] {
      DomainsOfCollected(emails[..|emails| - 1]);
    }
  }

  /** The positions with domain `d` are those where `DomainOpt` yields `d`. */
  lemma DomainPositionsHits(emails: seq<string>, d: string)
    ensures DomainPositions(emails, d) == Hits(emails, DomainOpt, d)
  {
    forall k: nat ensures k in DomainPositions(emails, d) <==> k in Hits(emails, DomainOpt, d) {
      if k < |emails| {
        assert DomainAt(emails, k, d) <==> DomainOpt(emails[k]) == Some(d);
      }
    }
  }

  /** Each domain is recorded once per e-mail containing '@' that has it. */
  lemma DomainsOfMultiplicity(emails: seq<string>, d: string)
    ensures multiset(DomainsOf(emails))[d] == |DomainPositions(emails, d)|
  {
    DomainsOfCollected(emails);
    DomainPositionsHits(emails, d);
    CollectedMultiplicity(emails, DomainOpt, d);
  }

  /** The domain of every e-mail containing '@' is recorded. */
  lemma DomainsOfComplete(emails: seq<string>)
    ensures forall k :: 0 <= k < |emails| && '@' in emails[k] ==> Domain(emails[k]) in DomainsOf(emails)
  {
    forall k | 0 <= k < |emails| && '@' in emails[k] ensures Domain(emails[k]) in DomainsOf(emails) {
      DomainRecorded(emails, k);
    }
  }

  /** The domains of all but the last e-mail are a prefix of the domains of all of them. */
  lemma DomainsOfPrefix(emails: seq<string>)
    requires emails != []
    ensures DomainsOf(emails[..|emails| - 1]) <= DomainsOf(emails)
  {
  }

  /** The domain of the `k`-th e-mail, when it contains '@', is recorded. */
  lemma {:induction false} DomainRecorded(emails: seq<string>, k: nat)
    requires k < |emails| && '@' in emails[k]
    ensures Domain(emails[k]) in DomainsOf(emails)
    decreases |emails|
  {
    var n := |emails| - 1;
    var init := emails[..n];
    var d := Domain(emails[k]);
    var ds := DomainsOf(emails);
    if k < n {
      assert init[k] == emails[k];
      DomainRecorded(init, k);
      assert d in DomainsOf(init);
      DomainsOfPrefix(emails);
      assert DomainsOf(init) <= ds;
    } else {
      assert ds == DomainsOf(init) + [d];
    }
  }

  /** A domain has a non-zero count exactly when some e-mail with an '@' has it. */
  lemma DomainCountsPresent(emails: seq<string>)
    ensures forall d :: Lookup(Count(DomainsOf(emails)), d) > 0 <==> exists k :: DomainAt(emails, k, d)
  {
    DomainsOfSound(emails);
    DomainsOfComplete(emails);
    forall d ensures Lookup(Count(DomainsOf(emails)), d) > 0 <==> exists k :: DomainAt(emails, k, d) {
      DomainCountPresent(emails, d);
    }
  }

  /** The same for one domain, given the two directions of the domain list's membership. */
  lemma DomainCountPresent(emails: seq<string>, d: string)
    requires forall d :: d in DomainsOf(emails) ==> exists k :: DomainAt(emails, k, d)
    requires forall k :: 0 <= k < |emails| && '@' in emails[k] ==> Domain(emails[k]) in DomainsOf(emails)
    ensures Lookup(Count(DomainsOf(emails)), d) > 0 <==> exists k :: DomainAt(emails, k, d)
  {
    var ds := DomainsOf(emails);
    assert Lookup(Count(ds), d) == multiset(ds)[d];
    assert d in ds <==> multiset(ds)[d] > 0;
    if exists k :: DomainAt(emails, k, d) {
      var k :| DomainAt(emails, k, d);
      assert Domain(emails[k]) in ds;
    }
  }

  /** The phone buckets; `Name()` is the string appended. */
  datatype PhonePattern = US10 | US11 | OtherPattern {
    function Name(): string {
      match this
      case US10 => "US-10-digit"
      case US11 => "US-11-digit"
      case OtherPattern => "Other"
    }
  }

  /** The bucket of one phone number, from the number of digits it holds. */
  function PatternOf(phone: string): (p: PhonePattern)
    ensures p == US10 <==> DigitCount(phone) == 10
    ensures p == US11 <==> DigitCount(phone) == 11
  {
    var digitsOnly := Digits(phone);
    DigitsLength(phone);
    if |digitsOnly| == 10 then US10 else if |digitsOnly| == 11 then US11 else OtherPattern
  }

  /** The pattern list after the loop has seen `phones`: one bucket per phone. */
  function PatternsOf(phones: seq<string>): (ps: seq<PhonePattern>)
    ensures |ps| == |phones|
    ensures forall k :: 0 <= k < |phones| ==> ps[k] == PatternOf(phones[k])
  {
    if phones == [] then []
    else PatternsOf(phones[..|phones| - 1]) + [PatternOf(phones[|phones| - 1])]
  }

  /** `_analyze_contact_info(...)`, with the domain counts in full. */
  datatype ContactAnalysis = ContactAnalysis(
    totalEmails: nat,
    emailDomains: seq<Entry<string>>,
    totalPhones: nat,
    phonePatterns: seq<Entry<PhonePattern>>)

  /** The first loop of `_analyze_contact_info`: the domain of every e-mail with an '@'. */
  method CollectDomains(emails: seq<string>) returns (emailDomains: seq<string>)
    ensures emailDomains == DomainsOf(emails)
    ensures |emailDomains| == |AtPositions(emails)|
    ensures forall k :: 0 <= k < |emails| && '@' in emails[k] ==> Domain(emails[k]) in emailDomains
    ensures forall d :: d in emailDomains ==> exists k :: DomainAt(emails, k, d)
  {
    DomainsOfCount(emails);
    DomainsOfComplete(emails);
    DomainsOfSound(emails);
    emailDomains := [];
    var i := 0;
    while i < |emails|
      invariant 0 <= i <= |emails|
      invariant emailDomains == DomainsOf(emails[..i])
    {
      assert emails[..i + 1][..i] == emails[..i];
      var email := emails[i];
      if '@' in email {
        var domain := Lower(SecondField(email));
        emailDomains := emailDomains + [domain];
      }
      i := i + 1;
    }
    assert emails[..i] == emails;
  }

  /** The second loop of `_analyze_contact_info`: the bucket of every phone. */
  method CollectPatterns(phones: seq<string>) returns (phonePatterns: seq<PhonePattern>)
    ensures phonePatterns == PatternsOf(phones)
  {
    phonePatterns := [];
    var j := 0;
    while j < |phones|
      invariant 0 <= j <= |phones|
      invariant phonePatterns == PatternsOf(phones[..j])
    {
      assert phones[..j + 1][..j] == phones[..j];
      var digitsOnly := Digits(phones[j]);
      var pattern := if |digitsOnly| == 10 then US10 else if |digitsOnly| == 11 then US11 else OtherPattern;
      phonePatterns := phonePatterns + [pattern];
      j := j + 1;
    }
    assert phones[..j] == phones;
  }

  /** `_analyze_contact_info(...)`: a domain for each e-mail with an '@', and a bucket for
      every phone, so the bucket counts add up to the number of phones. */
  method AnalyzeContactInfo(records: seq<Record>) returns (a: ContactAnalysis)
    ensures a.totalEmails == |TruthyValues(records, "email")|
    ensures a.totalEmails == |TruthyPositions(records, "email")|
    ensures a.emailDomains == Count(DomainsOf(TruthyValues(records, "email")))
    ensures Sum(a.emailDomains) == |AtPositions(TruthyValues(records, "email"))| <= a.totalEmails
    ensures forall d :: Lookup(a.emailDomains, d) > 0 <==> exists k :: DomainAt(TruthyValues(records, "email"), k, d)
    ensures forall d :: Lookup(a.emailDomains, d) == |DomainPositions(TruthyValues(records, "email"), d)|
    ensures a.totalPhones == |TruthyValues(records, "phone")|
    ensures a.totalPhones == |TruthyPositions(records, "phone")|
    ensures a.phonePatterns == Count(PatternsOf(TruthyValues(records, "phone")))
    ensures Sum(a.phonePatterns) == a.totalPhones
  {
    var emails := TruthyValues(records, "email");
    var phones := TruthyValues(records, "phone");
    TruthyValuesCount(records, "email");
    TruthyValuesCount(records, "phone");
    var emailDomains := CollectDomains(emails);
    var phonePatterns := CollectPatterns(phones);
    var domainCounts := Count(emailDomains);
    DomainCountsPresent(emails);
    forall d ensures multiset(emailDomains)[d] == |DomainPositions(emails, d)| {
      DomainsOfMultiplicity(emails, d);
    }
    a := ContactAnalysis(|emails|, domainCounts, |phones|, Count(phonePatterns));
  }

  /** `_generate_summary(...)`: each pick is present exactly when its counts are non-empty, and
      is then a key with the largest count, the first such in counter order. */
  datatype Summary = Summary(
    mostCommonStatus: Option<string>,
    mostCommonDeviceType: Option<DeviceType>,
    peakHour: Option<nat>)

  /** `k` is the key of the first entry with the largest count: what `max(d, key=d.get)`
      returns for a dictionary iterated in counter order. */
  predicate FirstMaxKey<K(==)>(c: seq<Entry<K>>, k: K) {
    exists i :: 0 <= i < |c| && c[i].key == k
      && (forall j :: 0 <= j < |c| ==> c[j].count <= c[i].count)
      && (forall j :: 0 <= j < i ==> c[j].count < c[i].count)
  }

  /** `max(d, key=d.get) if d else None` */
  function Pick<K(==)>(c: seq<Entry<K>>): (p: Option<K>)
    ensures p.Some? <==> c != []
    ensures p.Some? ==> FirstMaxKey(c, p.value)
  {
    if c == [] then None
    else
      var i := ArgMax(c);
      Some(c[i].key)
  }

  /** The summary picks: the most frequent status, device type and hour, when there are any. */
  function GenerateSummary(statusCounts: seq<Entry<string>>, deviceTypes: seq<Entry<DeviceType>>,
                           busiestHours: seq<Entry<nat>>): (s: Summary)
    ensures s.mostCommonStatus.Some? <==> statusCounts != []
    ensures s.mostCommonStatus.Some? ==> FirstMaxKey(statusCounts, s.mostCommonStatus.value)
    ensures s.mostCommonDeviceType.Some? <==> deviceTypes != []
    ensures s.mostCommonDeviceType.Some? ==> FirstMaxKey(deviceTypes, s.mostCommonDeviceType.value)
    ensures s.peakHour.Some? <==> busiestHours != []
    ensures s.peakHour.Some? ==> FirstMaxKey(busiestHours, s.peakHour.value)
  {
    Summary(Pick(statusCounts), Pick(deviceTypes), Pick(busiestHours))
  }

  /** On real counts the status pick is seen at least as often as any other status. */
  lemma SummaryStatusIsMostFrequent(records: seq<Record>, types: seq<Entry<DeviceType>>,
                                    hours: seq<Entry<nat>>, status: string)
    requires records != []
    ensures var s := GenerateSummary(StatusCounts(records), types, hours);
      && s.mostCommonStatus.Some?
      && Lookup(StatusCounts(records), status) <= Lookup(StatusCounts(records), s.mostCommonStatus.value)
  {
    var c := StatusCounts(records);
    assert c != [] by {
      assert Sum(c) == |records|;
    }
    ArgMaxIsMaximal(c, status);
  }
}
