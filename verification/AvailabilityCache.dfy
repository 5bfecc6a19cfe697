/**
  The availability cache of app/admin/routes.py: a dictionary of matrices with a time to live, which hands out the
  cached object itself. The dashboard shortens the object it is handed; the availability page shows it.
 */
module AvailabilityCache {
  import opened Wrappers

  const TTL := 30.0
  const PREVIEW := 3

  type Property = string

  // Dates are day numbers.
  datatype Key = Key(user: int, org: int, first: int, last: int, property: Option<int>, cancelled: bool)

  // computed is what the reservation service would answer at that moment; None if it raises.
  datatype Request =
    | AdminHome(user: int, org: int, today: int, now: real, computed: Option<seq<Property>>)
    | AvailabilityPage(user: int, org: int, start: int, days: Option<int>, property: Option<int>, cancelled: bool,
                       now: real, computed: Option<seq<Property>>)

  // Fourteen days unless the request says otherwise, and then between 1 and 31.
  function Days(days: Option<int>): (d: int)
    ensures 1 <= d <= 31
  {
    if days.None? then 14 else if days.value < 1 then 1 else if days.value > 31 then 31 else days.value
  }

  function KeyOf(r: Request): Key {
    match r
    case AdminHome(user, org, today, _, _) => Key(user, org, today, today + 6, None, false)
    case AvailabilityPage(user, org, start, days, property, cancelled, _, _) =>
      Key(user, org, start, start + Days(days) - 1, property, cancelled)
  }

  function Cut(ps: seq<Property>): seq<Property> {
    if |ps| <= PREVIEW then ps else ps[..PREVIEW]
  }

  /******* On values *******/

  datatype Entry = Entry(at: real, properties: seq<Property>)

  type Table = map<Key, Entry>

  predicate Hit(t: Table, key: Key, now: real) {
    key in t && now - t[key].at <= TTL
  }

  function Get(t: Table, key: Key, now: real, computed: Option<seq<Property>>): Table {
    if Hit(t, key, now) || computed.None? then t else t[key := Entry(now, computed.value)]
  }

  // The table after a request and the list it shows; nothing if the service raised.
  function Serve(t: Table, r: Request): (Table, Option<seq<Property>>) {
    var key := KeyOf(r);
    if !Hit(t, key, r.now) && r.computed.None? then (t, None)
    else
      var got := Get(t, key, r.now, r.computed);
      var shown := if r.AdminHome? then Cut(got[key].properties) else got[key].properties;
      (got[key := got[key].(properties := shown)], Some(shown))
  }

  function After(rs: seq<Request>, n: nat): Table
    requires n <= |rs|
  {
    if n == 0 then map[] else Serve(After(rs, n - 1), rs[n - 1]).0
  }

  /******* On the heap *******/

  class Matrix {
    var properties: seq<Property>

    constructor (properties: seq<Property>)
      ensures this.properties == properties
    {
      this.properties := properties;
    }
  }

  datatype Cached = Cached(at: real, payload: Matrix)

  class Cache {
    var entries: map<Key, Cached>

    ghost function Payloads(): set<Matrix>
      reads this
    {
      set k | k in entries :: entries[k].payload
    }

    // No two keys share a matrix.
    ghost predicate Valid()
      reads this
    {
      forall j, k :: j in entries && k in entries && j != k ==> entries[j].payload != entries[k].payload
    }

    ghost function Value(): Table
      reads this, Payloads()
    {
      map k | k in entries :: Entry(entries[k].at, entries[k].payload.properties)
    }

    constructor ()
      ensures Valid() && Value() == map[]
    {
      entries := map[];
    }

    // Hands out the cached object, not a copy.
    method GetCachedMatrix(key: Key, now: real, computed: Option<seq<Property>>) returns (m: Matrix?)
      requires Valid()
      modifies this
      ensures Valid() && Value() == Get(old(Value()), key, now, computed)
      ensures m == null <==> !Hit(old(Value()), key, now) && computed.None?
      ensures m != null ==> key in entries && entries[key].payload == m
      ensures fresh(Payloads() - old(Payloads()))
    {
      if key in entries && now - entries[key].at <= TTL {
        return entries[key].payload;
      }
      if computed.None? {
        return null;
      }
      m := new Matrix(computed.value);
      entries := entries[key := Cached(now, m)];
    }

    // The slice is assigned back into the object that the cache still holds.
    method ServeAdminHome(r: Request) returns (shown: Option<seq<Property>>)
      requires Valid() && r.AdminHome?
      modifies this, Payloads()
      ensures Valid() && fresh(Payloads() - old(Payloads()))
      ensures (Value(), shown) == Serve(old(Value()), r)
    {
      var preview := GetCachedMatrix(KeyOf(r), r.now, r.computed);
      if preview == null {
        return None;
      }
      preview.properties := Cut(preview.properties);
      shown := Some(preview.properties);
      assert Value() == Serve(old(Value()), r).0;
    }

    method ServeAvailabilityPage(r: Request) returns (shown: Option<seq<Property>>)
      requires Valid() && r.AvailabilityPage?
      modifies this
      ensures Valid() && fresh(Payloads() - old(Payloads()))
      ensures (Value(), shown) == Serve(old(Value()), r)
    {
      var matrix := GetCachedMatrix(KeyOf(r), r.now, r.computed);
      if matrix == null {
        return None;
      }
      shown := Some(matrix.properties);
      assert Value() == Serve(old(Value()), r).0;
    }
  }

  /******* Which requests share an entry *******/

  // What a request asks to see, in its own terms: whose view of which organization, from which first to which last day,
  // of which property, with or without cancelled stays. The dashboard asks for the week from today on.
  predicate Sees(r: Request, user: int, org: int, first: int, last: int, property: Option<int>, cancelled: bool) {
    match r
    case AdminHome(u, o, today, _, _) =>
      user == u && org == o && first == today && last == today + 6 && property == None && !cancelled
    case AvailabilityPage(u, o, start, days, p, c, _, _) =>
      && user == u && org == o && first == start && property == p && cancelled == c
      && (days.None? ==> last == start + 13)
      && (days.Some? && days.value < 1 ==> last == start)
      && (days.Some? && 1 <= days.value <= 31 ==> last == start + days.value - 1)
      && (days.Some? && days.value > 31 ==> last == start + 30)
  }

  ghost predicate SameView(a: Request, b: Request) {
    forall user, org, first, last, property, cancelled ::
      Sees(a, user, org, first, last, property, cancelled) <==> Sees(b, user, org, first, last, property, cancelled)
  }

  lemma SeesKey(r: Request, user: int, org: int, first: int, last: int, property: Option<int>, cancelled: bool)
    ensures Sees(r, user, org, first, last, property, cancelled)
       <==> KeyOf(r) == Key(user, org, first, last, property, cancelled)
  {
  }

  // Two requests share a key exactly when they ask for the same view.
  lemma SameKeyIff(a: Request, b: Request)
    ensures KeyOf(a) == KeyOf(b) <==> SameView(a, b)
  {
    var k := KeyOf(a);
    SeesKey(a, k.user, k.org, k.first, k.last, k.property, k.cancelled);
    SeesKey(b, k.user, k.org, k.first, k.last, k.property, k.cancelled);
    if KeyOf(a) == KeyOf(b) {
      forall user, org, first, last, property, cancelled
        ensures Sees(a, user, org, first, last, property, cancelled) <==> Sees(b, user, org, first, last, property, cancelled)
      {
        SeesKey(a, user, org, first, last, property, cancelled);
        SeesKey(b, user, org, first, last, property, cancelled);
      }
    }
  }

  /******* Where a shown list comes from *******/

  predicate Asks(rs: seq<Request>, j: nat, key: Key)
    requires j < |rs|
  {
    KeyOf(rs[j]) == key
  }

  predicate FreshAt(rs: seq<Request>, i: nat, j: nat)
    requires i < |rs| && j < |rs|
  {
    rs[j].now - rs[i].now <= 30.0
  }

  // Request i computed the list, and every later request for the key, up to n, found it fresh or could not replace it.
  ghost predicate Filled(rs: seq<Request>, i: nat, n: nat, key: Key) {
    && i < n <= |rs| && Asks(rs, i, key) && rs[i].computed.Some?
    && forall j :: i < j < n && Asks(rs, j, key) ==> FreshAt(rs, i, j) || rs[j].computed.None?
  }

  // The dashboard was served from the list that request i computed.
  ghost predicate Dashed(rs: seq<Request>, i: nat, n: nat, key: Key)
    requires i < n <= |rs|
  {
    exists j :: i <= j < n && Asks(rs, j, key) && rs[j].AdminHome? && FreshAt(rs, i, j)
  }

  function CutIf(b: bool, ps: seq<Property>): seq<Property> {
    if b then Cut(ps) else ps
  }

  lemma DashedStep(rs: seq<Request>, i: nat, n: nat, key: Key)
    requires i < n < |rs|
    ensures Dashed(rs, i, n + 1, key) <==>
      Dashed(rs, i, n, key) || (Asks(rs, n, key) && rs[n].AdminHome? && FreshAt(rs, i, n))
  {
  }

  ghost predicate Came(rs: seq<Request>, i: nat, n: nat, key: Key, e: Entry) {
    Filled(rs, i, n, key) && e == Entry(rs[i].now, CutIf(Dashed(rs, i, n, key), rs[i].computed.value))
  }

  lemma CameKept(rs: seq<Request>, i: nat, n: nat, key: Key, e: Entry)
    requires n < |rs| && Came(rs, i, n, key, e)
    requires !Asks(rs, n, key) || (!FreshAt(rs, i, n) && rs[n].computed.None?)
    ensures Came(rs, i, n + 1, key, e)
  {
    DashedStep(rs, i, n, key);
  }

  lemma CameHit(rs: seq<Request>, i: nat, n: nat, key: Key, e: Entry)
    requires n < |rs| && Came(rs, i, n, key, e) && Asks(rs, n, key) && FreshAt(rs, i, n)
    ensures Came(rs, i, n + 1, key, e.(properties := if rs[n].AdminHome? then Cut(e.properties) else e.properties))
  {
    DashedStep(rs, i, n, key);
  }

  lemma CameNew(rs: seq<Request>, n: nat, key: Key)
    requires n < |rs| && Asks(rs, n, key) && rs[n].computed.Some?
    ensures var ps := rs[n].computed.value;
      Came(rs, n, n + 1, key, Entry(rs[n].now, if rs[n].AdminHome? then Cut(ps) else ps))
  {
    assert FreshAt(rs, n, n);
  }

  // Every entry was computed by one request for its key, at the time it bears; its list is what was computed, cut to
  // the first three if and only if the dashboard has been served from it.
  lemma {:induction false} Provenance(rs: seq<Request>, n: nat, key: Key) returns (i: nat)
    requires n <= |rs| && key in After(rs, n)
    ensures Came(rs, i, n, key, After(rs, n)[key])
  {
    var t, r := After(rs, n - 1), rs[n - 1];
    if KeyOf(r) == key && !Hit(t, key, r.now) && r.computed.Some? {
      i := n - 1;
      CameNew(rs, n - 1, key);
    } else {
      i := Provenance(rs, n - 1, key);
      if KeyOf(r) == key && Hit(t, key, r.now) {
        CameHit(rs, i, n - 1, key, t[key]);
      } else {
        CameKept(rs, i, n - 1, key, t[key]);
      }
    }
  }

  // What request n shows: the list that request i, which filled the entry, computed for the very same key no more than
  // thirty seconds before, or at n itself; whole, unless the dashboard has been served from it.
  lemma ShownList(rs: seq<Request>, n: nat) returns (i: nat)
    requires n < |rs| && Serve(After(rs, n), rs[n]).1.Some?
    ensures Filled(rs, i, n + 1, KeyOf(rs[n])) && FreshAt(rs, i, n)
    ensures SameView(rs[i], rs[n]) && rs[n].now - rs[i].now <= 30.0
    ensures Serve(After(rs, n), rs[n]).1.value == CutIf(Dashed(rs, i, n + 1, KeyOf(rs[n])), rs[i].computed.value)
  {
    assert After(rs, n + 1) == Serve(After(rs, n), rs[n]).0;
    i := Provenance(rs, n + 1, KeyOf(rs[n]));
    SameKeyIff(rs[i], rs[n]);
  }

  // From the request that stored a list on, the entry is that list, as long as no request for the view finds it too old
  // and has it computed anew.
  lemma {:induction false} StoredEntry(rs: seq<Request>, j: nat, n: nat)
    requires j < n <= |rs| && rs[j].computed.Some? && !Hit(After(rs, j), KeyOf(rs[j]), rs[j].now)
    requires Filled(rs, j, n, KeyOf(rs[j]))
    ensures KeyOf(rs[j]) in After(rs, n) && Came(rs, j, n, KeyOf(rs[j]), After(rs, n)[KeyOf(rs[j])])
    decreases n
  {
    var key := KeyOf(rs[j]);
    if j == n - 1 {
      CameNew(rs, j, key);
    } else {
      StoredEntry(rs, j, n - 1);
      if KeyOf(rs[n - 1]) == key && FreshAt(rs, j, n - 1) {
        CameHit(rs, j, n - 1, key, After(rs, n - 1)[key]);
      } else {
        CameKept(rs, j, n - 1, key, After(rs, n - 1)[key]);
      }
    }
  }

  // Another request for the same view, no later than thirty seconds after the one that had the list computed, is shown
  // that list and nothing newer.
  lemma StoredListIsShown(rs: seq<Request>, j: nat, n: nat)
    requires j < n < |rs| && rs[j].computed.Some? && !Hit(After(rs, j), KeyOf(rs[j]), rs[j].now)
    requires SameView(rs[j], rs[n]) && rs[n].now - rs[j].now <= 30.0
    requires forall k :: j < k < n && SameView(rs[j], rs[k]) ==> rs[k].now - rs[j].now <= 30.0
    ensures Serve(After(rs, n), rs[n]).1 == Some(CutIf(Dashed(rs, j, n + 1, KeyOf(rs[j])), rs[j].computed.value))
  {
    forall k | j < k < n && Asks(rs, k, KeyOf(rs[j])) ensures FreshAt(rs, j, k) {
      SameKeyIff(rs[j], rs[k]);
    }
    SameKeyIff(rs[j], rs[n]);
    StoredEntry(rs, j, n);
    CameHit(rs, j, n, KeyOf(rs[j]), After(rs, n)[KeyOf(rs[j])]);
  }

  // A first request for a view, and any whose list is older than thirty seconds, has it computed.
  lemma NewListIsShown(rs: seq<Request>, n: nat)
    requires n < |rs| && rs[n].computed.Some?
    requires forall j :: 0 <= j < n && SameView(rs[j], rs[n]) ==> rs[n].now - rs[j].now > 30.0
    ensures Serve(After(rs, n), rs[n]).1
         == Some(if rs[n].AdminHome? && |rs[n].computed.value| > 3 then rs[n].computed.value[..3] else rs[n].computed.value)
  {
    if Hit(After(rs, n), KeyOf(rs[n]), rs[n].now) {
      var i := Provenance(rs, n, KeyOf(rs[n]));
      SameKeyIff(rs[i], rs[n]);
    }
  }

  function Min3(ps: seq<Property>): (n: nat)
    ensures n <= |ps|
  {
    if |ps| < 3 then |ps| else 3
  }

  // So the availability page shows less than was computed exactly when there are more than three properties and the
  // dashboard has been served from the same list.
  lemma PageIsTruncatedIff(rs: seq<Request>, n: nat) returns (i: nat)
    requires n < |rs| && rs[n].AvailabilityPage? && Serve(After(rs, n), rs[n]).1.Some?
    ensures Filled(rs, i, n + 1, KeyOf(rs[n])) && FreshAt(rs, i, n) && SameView(rs[i], rs[n])
    ensures Serve(After(rs, n), rs[n]).1.value in {rs[i].computed.value, rs[i].computed.value[..Min3(rs[i].computed.value)]}
    ensures Serve(After(rs, n), rs[n]).1.value != rs[i].computed.value <==>
      |rs[i].computed.value| > 3
      && exists j :: i <= j < n && Asks(rs, j, KeyOf(rs[n])) && rs[j].AdminHome? && FreshAt(rs, i, j)
  {
    i := ShownList(rs, n);
    if i < n {
      DashedStep(rs, i, n, KeyOf(rs[n]));
    }
  }

  // Only a page over exactly seven days, without filters, can share the dashboard's list.
  lemma OtherPagesAreWhole(rs: seq<Request>, n: nat) returns (i: nat)
    requires n < |rs| && rs[n].AvailabilityPage? && Serve(After(rs, n), rs[n]).1.Some?
    requires Days(rs[n].days) != 7 || rs[n].property.Some? || rs[n].cancelled
    ensures Filled(rs, i, n + 1, KeyOf(rs[n])) && FreshAt(rs, i, n) && SameView(rs[i], rs[n])
    ensures Serve(After(rs, n), rs[n]).1 == rs[i].computed
  {
    i := PageIsTruncatedIff(rs, n);
  }

  lemma PageCanBeTruncated()
    ensures var all := ["a", "b", "c", "d"];
      var rs := [AdminHome(1, 1, 0, 0.0, Some(all)), AvailabilityPage(1, 1, 0, Some(7), None, false, 30.0, Some(all))];
      Serve(After(rs, 1), rs[1]).1 == Some(["a", "b", "c"])
  {
    var all := ["a", "b", "c", "d"];
    var rs := [AdminHome(1, 1, 0, 0.0, Some(all)), AvailabilityPage(1, 1, 0, Some(7), None, false, 30.0, Some(all))];
    var key := Key(1, 1, 0, 6, None, false);
    assert After(rs, 0) == map[];
    assert Cut(all) == ["a", "b", "c"];
    assert After(rs, 1)[key] == Entry(0.0, Cut(all));
  }
}
