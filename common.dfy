/** Values and sequence helpers shared by the three versions of the heatmap add-in. */
module Common {

  datatype Option<+T> = None | Some(value: T)

  /** What the telemetry API returns for a `Get` of `LogRecord` or `ExceptionEvent`:
      only the fields the add-in reads. The objects are untyped in the add-in, so one
      record carries the fields of both kinds; `deviceId == ""` stands for an exception
      whose `device` or `device.id` is missing or empty. The optimized add-in skips such an
      exception, because both are falsy in its test; the classic add-in reads `device.id`
      without a test and would throw on a missing `device`, which this type cannot show. */
  datatype Entity = Entity(
    latitude: int, longitude: int, dateTime: string,
    deviceId: string, activeFrom: string, activeTo: string)

  /** A heatmap point `{lat, lon, timestamp, value: 1}` (the constant `value` is dropped). */
  datatype Point = Point(lat: int, lon: int, timestamp: string)

  /** The point a log record is drawn as. */
  function ToPoint(r: Entity): Point { Point(r.latitude, r.longitude, r.dateTime) }

  /** The `search` part of a `Get` request. */
  datatype Search = Search(
    deviceId: Option<string>, ruleId: Option<string>, diagnosticCode: Option<string>,
    fromDate: string, toDate: string)

  datatype Query = Query(typeName: string, resultsLimit: nat, search: Search)

  /** One element of a `multiCall` batch; every call the add-in makes is a `Get`. */
  datatype Call = Get(query: Query)

  /** What one `multiCall` reports: the result lists of its calls, or an error. */
  datatype Fetch = Fetched(lists: seq<seq<Entity>>) | FetchFailed(error: string)

  /** A date input: its text, the instant `new Date(text)` gives (milliseconds) and that
      instant's `toISOString()`. */
  datatype DateField = DateField(text: string, instant: int, iso: string)

  /** An `<option>` of a `<select>` list. */
  datatype SelectOption = SelectOption(text: string, value: string, selected: bool)

  /** A `Get` for one vehicle: the search config with `deviceSearch` set to `{id: vehicle}`. */
  function WithDevice(config: Query, vehicle: string): Query
  {
    config.(search := config.search.(deviceId := Some(vehicle)))
  }

  function CallsFor(vehicles: seq<string>, config: Query): (calls: seq<Call>)
    ensures |calls| == |vehicles|
  {
    seq(|vehicles|, i requires 0 <= i < |vehicles| => Get(WithDevice(config, vehicles[i])))
  }

  function Min(a: int, b: int): int { if a < b then a else b }

  /** `Math.ceil(n / d)`: the least count of `d`-sized pieces that covers `n`. */
  function CeilDiv(n: nat, d: nat): (c: nat)
    requires d > 0
    ensures c * d >= n
    ensures c > 0 ==> (c - 1) * d < n
    decreases n
  {
    if n == 0 then 0 else if n <= d then 1 else 1 + CeilDiv(n - d, d)
  }

  /** Concatenation of a list of lists, in order. */
  function Flatten<T>(xss: seq<seq<T>>): seq<T>
  {
    if xss == [] then [] else Flatten(xss[..|xss| - 1]) + xss[|xss| - 1]
  }

  lemma {:induction false} FlattenConcat<T>(a: seq<seq<T>>, b: seq<seq<T>>)
    ensures Flatten(a + b) == Flatten(a) + Flatten(b)
    decreases |b|
  {
    if b == [] {
      assert a + b == a;
    } else {
      var n := |b| - 1;
      assert (a + b)[..|a + b| - 1] == a + b[..n];
      assert (a + b)[|a + b| - 1] == b[n];
      assert Flatten(a + b) == Flatten(a + b[..n]) + b[n];
      assert Flatten(b) == Flatten(b[..n]) + b[n];
      FlattenConcat(a, b[..n]);
      assert Flatten(a) + Flatten(b[..n]) + b[n] == Flatten(a) + (Flatten(b[..n]) + b[n]);
    }
  }

  lemma FlattenCons<T>(x: seq<T>, rest: seq<seq<T>>)
    ensures Flatten([x] + rest) == x + Flatten(rest)
  {
    FlattenConcat([x], rest);
    assert Flatten([x]) == Flatten([]) + x;
  }

  /** `s` with at most `n` elements kept from the front. */
  function Take<T>(s: seq<T>, n: nat): (r: seq<T>)
    ensures |r| == Min(|s|, n)
    ensures r <= s
  {
    if |s| <= n then s else s[..n]
  }

  lemma TakeAppend<T>(s: seq<T>, t: seq<T>, n: nat)
    requires |s| < n && |t| <= 1
    ensures Take(s + t, n) == Take(s, n) + t
  {
  }

  /** Once `p` already has `n` elements, extending it does not change its first `n`. */
  lemma TakeOfLonger<T>(p: seq<T>, q: seq<T>, n: nat)
    requires p <= q && |p| >= n
    ensures Take(p, n) == Take(q, n)
  {
  }

  /** How many of the lists have at least `limit` elements (the "result limit exceeded" counters). */
  function CountAtLeast<T>(xss: seq<seq<T>>, limit: nat): (c: nat)
    ensures c <= |xss|
  {
    if xss == [] then 0
    else CountAtLeast(xss[..|xss| - 1], limit) + (if |xss[|xss| - 1]| >= limit then 1 else 0)
  }

  lemma CountAtLeastStep<T>(xss: seq<seq<T>>, i: nat, limit: nat)
    requires i < |xss|
    ensures CountAtLeast(xss[..i + 1], limit)
         == CountAtLeast(xss[..i], limit) + (if |xss[i]| >= limit then 1 else 0)
  {
    assert xss[..i + 1][..i] == xss[..i];
  }

  lemma FlattenStep<T>(xss: seq<seq<T>>, i: nat)
    requires i < |xss|
    ensures Flatten(xss[..i + 1]) == Flatten(xss[..i]) + xss[i]
  {
    assert xss[..i + 1][..i] == xss[..i];
  }

  /** The consecutive slices of at most `size` elements the add-in cuts a list into
      (`slice(currentIndex, min(currentIndex + size, length))`). */
  function Chunks<T>(s: seq<T>, size: nat): seq<seq<T>>
    requires size > 0
    decreases |s|
  {
    if s == [] then [] else
      var k := Min(size, |s|);
      [s[..k]] + Chunks(s[k..], size)
  }

  lemma {:induction false} ChunksConcatenate<T>(s: seq<T>, size: nat)
    requires size > 0
    ensures Flatten(Chunks(s, size)) == s
    decreases |s|
  {
    if s != [] {
      var k := Min(size, |s|);
      ChunksConcatenate(s[k..], size);
      FlattenCons(s[..k], Chunks(s[k..], size));
      assert s[..k] + s[k..] == s;
    }
  }

  lemma {:induction false} ChunksCount<T>(s: seq<T>, size: nat)
    requires size > 0
    ensures |Chunks(s, size)| == CeilDiv(|s|, size)
    decreases |s|
  {
    if s != [] {
      ChunksCount(s[Min(size, |s|)..], size);
    }
  }

  lemma {:induction false} ChunksBounded<T>(s: seq<T>, size: nat)
    requires size > 0
    ensures forall c :: c in Chunks(s, size) ==> 0 < |c| <= size
    decreases |s|
  {
    if s != [] {
      ChunksBounded(s[Min(size, |s|)..], size);
    }
  }

  /** `make(r)` for every record `r` that passes `keep`, in input order. */
  function Collect<R, P>(records: seq<R>, keep: R -> bool, make: R -> P): (out: seq<P>)
    ensures |out| <= |records|
  {
    if records == [] then []
    else
      var r := records[|records| - 1];
      Collect(records[..|records| - 1], keep, make) + (if keep(r) then [make(r)] else [])
  }

  lemma CollectSnoc<R, P>(records: seq<R>, r: R, keep: R -> bool, make: R -> P)
    ensures Collect(records + [r], keep, make) == Collect(records, keep, make) + (if keep(r) then [make(r)] else [])
  {
    assert (records + [r])[..|records|] == records;
  }

  /** One more element of a row, read after the rows before it. */
  lemma CollectRowStep<R, P>(before: seq<R>, row: seq<R>, j: nat, keep: R -> bool, make: R -> P)
    requires j < |row|
    ensures Collect(before + row[..j + 1], keep, make)
         == Collect(before + row[..j], keep, make) + (if keep(row[j]) then [make(row[j])] else [])
  {
    assert before + row[..j + 1] == before + row[..j] + [row[j]];
    CollectSnoc(before + row[..j], row[j], keep, make);
  }

  /** How many elements satisfy `p`. */
  function CountWhere<T>(s: seq<T>, p: T -> bool): (n: nat)
    ensures n <= |s|
  {
    if s == [] then 0
    else CountWhere(s[..|s| - 1], p) + (if p(s[|s| - 1]) then 1 else 0)
  }

  lemma CountWhereSnoc<T>(s: seq<T>, x: T, p: T -> bool)
    ensures CountWhere(s + [x], p) == CountWhere(s, p) + (if p(x) then 1 else 0)
  {
    assert (s + [x])[..|s|] == s;
  }

  /** An element either satisfies `p` or does not. */
  lemma {:induction false} CountWhereComplement<T>(s: seq<T>, p: T -> bool, q: T -> bool)
    requires forall x :: q(x) == !p(x)
    ensures CountWhere(s, p) + CountWhere(s, q) == |s|
    decreases |s|
  {
    if s != [] {
      CountWhereComplement(s[..|s| - 1], p, q);
    }
  }

  /** Counting over collected points is counting over the records that produced them. */
  lemma {:induction false} CountWhereCollect<R, P>(records: seq<R>, keep: R -> bool, make: R -> P,
                                                 p: P -> bool, q: R -> bool)
    requires forall r :: q(r) == (keep(r) && p(make(r)))
    ensures CountWhere(Collect(records, keep, make), p) == CountWhere(records, q)
    decreases |records|
  {
    if records != [] {
      var init := records[..|records| - 1];
      var r := records[|records| - 1];
      CountWhereCollect(init, keep, make, p, q);
      if keep(r) {
        CountWhereSnoc(Collect(init, keep, make), make(r), p);
      } else {
        assert Collect(records, keep, make) == Collect(init, keep, make);
      }
    }
  }

  /** Every collected element is made from a kept record. */
  lemma {:induction false} CollectMembers<R, P>(records: seq<R>, keep: R -> bool, make: R -> P)
    ensures forall p :: p in Collect(records, keep, make) ==> exists r :: r in records && keep(r) && p == make(r)
    decreases |records|
  {
    if records != [] {
      var init := records[..|records| - 1];
      CollectMembers(init, keep, make);
      forall p | p in Collect(records, keep, make)
        ensures exists r :: r in records && keep(r) && p == make(r)
      {
        if p in Collect(init, keep, make) {
          var r :| r in init && keep(r) && p == make(r);
          assert r in records;
        } else {
          assert records[|records| - 1] in records;
        }
      }
    }
  }

  lemma {:induction false} CountWhereAll<T>(s: seq<T>)
    ensures CountWhere(s, (x: T) => true) == |s|
    decreases |s|
  {
    if s != [] {
      CountWhereAll(s[..|s| - 1]);
    }
  }

  /** True when there is nothing in any of the result lists. */
  predicate NoRecords<T>(results: seq<seq<T>>)
  {
    forall i :: 0 <= i < |results| ==> |results[i]| == 0
  }

  /** `x` / `resultsEmpty`: a missing or empty outer list, or one whose every inner list is
      empty, counts as "no results". */
  method ResultsEmpty<T>(results: Option<seq<seq<T>>>) returns (empty: bool)
    ensures empty <==> (results.None? || |results.value| == 0 || NoRecords(results.value))
  {
    if results.None? || |results.value| == 0 {
      return true;
    }
    var e := results.value;
    var t := 0;
    while t < |e|
      invariant 0 <= t <= |e|
      invariant forall i :: 0 <= i < t ==> |e[i]| == 0
    {
      if 0 < |e[t]| {
        return false;
      }
      t := t + 1;
    }
    return true;
  }

  /** Number of selected options. */
  function NumSelected(options: seq<SelectOption>): (n: nat)
    ensures n <= |options|
  {
    if options == [] then 0
    else NumSelected(options[..|options| - 1]) + (if options[|options| - 1].selected then 1 else 0)
  }

  /** The loop `for (...) if (options[i].selected) count++` of `validateVehicleSelection`
      and of the classic dispatcher `d`. */
  method CountSelected(options: seq<SelectOption>) returns (count: nat)
    ensures count == NumSelected(options)
    ensures count == 0 <==> forall i :: 0 <= i < |options| ==> !options[i].selected
  {
    count := 0;
    var i := 0;
    while i < |options|
      invariant 0 <= i <= |options|
      invariant count == NumSelected(options[..i])
      invariant count == 0 <==> forall j :: 0 <= j < i ==> !options[j].selected
    {
      assert options[..i + 1][..i] == options[..i];
      if options[i].selected {
        count := count + 1;
      }
      i := i + 1;
    }
    assert options[..i] == options;
  }

  /** The vehicle ids the classic and optimized searches send: `option.value || option.text`
      of every selected option, in list order. */
  function SelectedIdsOrText(options: seq<SelectOption>): (ids: seq<string>)
    ensures |ids| == NumSelected(options)
  {
    if options == [] then []
    else
      var o := options[|options| - 1];
      SelectedIdsOrText(options[..|options| - 1])
        + (if o.selected then [if o.value != "" then o.value else o.text] else [])
  }

  /** The loop that pushes `option.value || option.text` for each selected option. */
  method SelectedVehicles(options: seq<SelectOption>) returns (ids: seq<string>)
    ensures ids == SelectedIdsOrText(options)
  {
    ids := [];
    var i := 0;
    while i < |options|
      invariant 0 <= i <= |options|
      invariant ids == SelectedIdsOrText(options[..i])
    {
      assert options[..i + 1][..i] == options[..i];
      if options[i].selected {
        ids := ids + [if options[i].value != "" then options[i].value else options[i].text];
      }
      i := i + 1;
    }
    assert options[..i] == options;
  }

  lemma {:induction false} SelectedIdsOrTextConcat(a: seq<SelectOption>, b: seq<SelectOption>)
    ensures SelectedIdsOrText(a + b) == SelectedIdsOrText(a) + SelectedIdsOrText(b)
    decreases |b|
  {
    if b == [] {
      assert a + b == a;
    } else {
      assert (a + b)[..|a + b| - 1] == a + b[..|b| - 1];
      SelectedIdsOrTextConcat(a, b[..|b| - 1]);
    }
  }
}
