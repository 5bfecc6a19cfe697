/**
  The redacted JSON export of the settings table and its upsert restore (app/backups/services.py).
 */
module Settings {
  import opened Wrappers

  const SECRET_REDACTED := "<redacted>"
  const DEFAULT_TYPE := "string"

  datatype Setting = Setting(value: Option<string>, kind: string, description: string, isSecret: bool, updatedAt: int)

  type Table = map<string, Setting>

  // A JSON value as the restore sees it: null, a text, or something else, of which only its printed form is used.
  datatype Json = Null | Text(text: string) | Other(printed: string)

  // An element of the rows list of an export. A key that is missing or null is None.
  datatype Raw =
    | NotARow
    | Raw(key: Option<string>, value: Json, kind: Option<string>, description: Option<string>, isSecret: bool)

  datatype Counts = Counts(created: nat, updated: nat, skippedRedactedMissing: nat, redactedPreserved: nat)

  /******* Export *******/

  function ExportRow(key: string, s: Setting): Raw {
    var value := if s.isSecret then Text(SECRET_REDACTED) else if s.value.None? then Null else Text(s.value.value);
    Raw(Some(key), value, Some(s.kind), Some(s.description), s.isSecret)
  }

  // The order in which the table's rows are written: every key once.
  ghost predicate Listing(order: seq<string>, t: Table) {
    && (forall i, j :: 0 <= i < j < |order| ==> order[i] != order[j])
    && (forall k :: k in order <==> k in t)
  }

  function Export(t: Table, order: seq<string>): (raws: seq<Raw>)
    requires forall k :: k in order ==> k in t
    ensures |raws| == |order|
  {
    seq(|order|, i requires 0 <= i < |order| => assert order[i] in order; ExportRow(order[i], t[order[i]]))
  }

  /******* Restore *******/

  predicate Usable(raw: Raw) {
    raw.Raw? && raw.key.Some? && raw.key.value != ""
  }

  predicate Redacted(raw: Raw)
    requires Usable(raw)
  {
    raw.value == Text(SECRET_REDACTED)
  }

  function Incoming(v: Json): Option<string> {
    match v
    case Null => None
    case Text(text) => Some(text)
    case Other(printed) => Some(printed)
  }

  function Fill(s: Setting, raw: Raw, now: int): Setting
    requires Usable(raw)
  {
    Setting(if Redacted(raw) then s.value else Incoming(raw.value),
            if raw.kind.Some? && raw.kind.value != "" then raw.kind.value else s.kind,
            if raw.description.Some? then raw.description.value else s.description,
            raw.isSecret,
            now)
  }

  function Upsert(t: Table, raw: Raw, now: int): Table {
    if !Usable(raw) then t
    else if raw.key.value in t then t[raw.key.value := Fill(t[raw.key.value], raw, now)]
    else if Redacted(raw) then t
    else t[raw.key.value := Fill(Setting(None, DEFAULT_TYPE, "", false, now), raw, now)]
  }

  function Tally(t: Table, raw: Raw, c: Counts): Counts {
    if !Usable(raw) then c
    else if raw.key.value in t then
      c.(updated := c.updated + 1, redactedPreserved := c.redactedPreserved + if Redacted(raw) then 1 else 0)
    else if Redacted(raw) then c.(skippedRedactedMissing := c.skippedRedactedMissing + 1)
    else c.(created := c.created + 1)
  }

  function RestoreFirst(t: Table, raws: seq<Raw>, now: int, n: nat): Table
    requires n <= |raws|
  {
    if n == 0 then t else Upsert(RestoreFirst(t, raws, now, n - 1), raws[n - 1], now)
  }

  function CountsFirst(t: Table, raws: seq<Raw>, now: int, n: nat): Counts
    requires n <= |raws|
  {
    if n == 0 then Counts(0, 0, 0, 0)
    else Tally(RestoreFirst(t, raws, now, n - 1), raws[n - 1], CountsFirst(t, raws, now, n - 1))
  }

  function Restore(t: Table, raws: seq<Raw>, now: int): Table {
    RestoreFirst(t, raws, now, |raws|)
  }

  class SettingsStore {
    var table: Table

    constructor (t: Table)
      ensures table == t
    {
      table := t;
    }

    method RestoreFromJson(raws: seq<Raw>, now: int) returns (c: Counts)
      modifies this
      ensures table == Restore(old(table), raws, now)
      ensures c == CountsFirst(old(table), raws, now, |raws|)
    {
      var created, updated, skipped, preserved := 0, 0, 0, 0;
      var n := 0;
      while n < |raws|
        invariant n <= |raws|
        invariant table == RestoreFirst(old(table), raws, now, n)
        invariant Counts(created, updated, skipped, preserved) == CountsFirst(old(table), raws, now, n)
      {
        var raw := raws[n];
        n := n + 1;
        if !Usable(raw) {
          continue;
        }
        var key := raw.key.value;
        if key !in table {
          if Redacted(raw) {
            skipped := skipped + 1;
            continue;
          }
          table := table[key := Fill(Setting(None, DEFAULT_TYPE, "", false, now), raw, now)];
          created := created + 1;
          continue;
        }
        if Redacted(raw) {
          preserved := preserved + 1;
        }
        table := table[key := Fill(table[key], raw, now)];
        updated := updated + 1;
      }
      return Counts(created, updated, skipped, preserved);
    }
  }

  /******* What a restore does to one key *******/

  predicate Names(raw: Raw, key: string) {
    Usable(raw) && raw.key.value == key
  }

  // The value of the last row for a key that carries one.
  function LastValue(raws: seq<Raw>, key: string, n: nat): Option<Option<string>>
    requires n <= |raws|
  {
    if n == 0 then None
    else if Names(raws[n - 1], key) && !Redacted(raws[n - 1]) then Some(Incoming(raws[n - 1].value))
    else LastValue(raws, key, n - 1)
  }

  // The last value, by position: row i carries it, no later row for the key carries one, and a row carries one unless
  // it holds the marker.
  lemma {:induction false} LastValueIs(raws: seq<Raw>, key: string, n: nat, i: nat)
    requires n <= |raws| && i < n && Names(raws[i], key) && raws[i].value != Text("<redacted>")
    requires forall j :: i < j < n && Names(raws[j], key) ==> raws[j].value == Text("<redacted>")
    ensures LastValue(raws, key, n) == Some(match raws[i].value
                                            case Null => None
                                            case Text(text) => Some(text)
                                            case Other(printed) => Some(printed))
  {
    if i < n - 1 {
      LastValueIs(raws, key, n - 1, i);
    }
  }

  lemma {:induction false} NoLastValue(raws: seq<Raw>, key: string, n: nat)
    requires n <= |raws|
    ensures LastValue(raws, key, n).None? <==>
      forall i :: 0 <= i < n && Names(raws[i], key) ==> raws[i].value == Text("<redacted>")
  {
    if n > 0 {
      NoLastValue(raws, key, n - 1);
    }
  }

  // A row that is created has the type and description of its row, "string" and nothing where they are not given.
  lemma CreatedRow(t: Table, raw: Raw, now: int)
    requires raw.Raw? && raw.key.Some? && raw.key.value != "" && raw.key.value !in t && raw.value != Text("<redacted>")
    ensures raw.key.value in Upsert(t, raw, now)
    ensures var s := Upsert(t, raw, now)[raw.key.value];
      && s.kind == (if raw.kind == None || raw.kind == Some("") then "string" else raw.kind.value)
      && s.description == (if raw.description == None then "" else raw.description.value)
      && s.isSecret == raw.isSecret && s.updatedAt == now
  {
  }

  // A row that is updated keeps its type unless another is given, and its description unless one is given.
  lemma UpdatedRow(t: Table, raw: Raw, now: int)
    requires raw.Raw? && raw.key.Some? && raw.key.value != "" && raw.key.value in t
    ensures raw.key.value in Upsert(t, raw, now)
    ensures var before, s := t[raw.key.value], Upsert(t, raw, now)[raw.key.value];
      && s.kind == (if raw.kind == None || raw.kind == Some("") then before.kind else raw.kind.value)
      && s.description == (if raw.description == None then before.description else raw.description.value)
      && s.isSecret == raw.isSecret && s.updatedAt == now
  {
  }

  // After a restore a key holds the last value the export carries for it; where the export carries none, or only the
  // marker, it holds what it held before, and it is not created.
  lemma {:induction false} RestoredValue(t: Table, raws: seq<Raw>, now: int, n: nat, key: string)
    requires n <= |raws|
    ensures var t' := RestoreFirst(t, raws, now, n);
            var last := LastValue(raws, key, n);
      && (key in t' <==> key in t || last.Some?)
      && (last.Some? ==> t'[key].value == last.value)
      && (last.None? && key in t ==> t'[key].value == t[key].value)
  {
    if n > 0 {
      RestoredValue(t, raws, now, n - 1, key);
    }
  }

  // A key the export does not name keeps its whole row.
  lemma {:induction false} UnnamedKeyUntouched(t: Table, raws: seq<Raw>, now: int, n: nat, key: string)
    requires n <= |raws|
    requires forall i :: 0 <= i < n ==> !Names(raws[i], key)
    ensures var t' := RestoreFirst(t, raws, now, n);
      (key in t' <==> key in t) && (key in t ==> t'[key] == t[key])
  {
    if n > 0 {
      UnnamedKeyUntouched(t, raws, now, n - 1, key);
    }
  }

  // Restoring the same export again changes no value and creates no key.
  lemma RestoreTwice(t: Table, raws: seq<Raw>, now: int, later: int, key: string)
    ensures var once := Restore(t, raws, now);
            var twice := Restore(once, raws, later);
      (key in twice <==> key in once) && (key in once ==> twice[key].value == once[key].value)
  {
    RestoredValue(t, raws, now, |raws|, key);
    RestoredValue(Restore(t, raws, now), raws, later, |raws|, key);
  }

  // The types need not settle at once: a marker row skipped by the first restore is applied by the second.
  lemma RestoreTwiceMayChangeTypes()
    ensures var raws := [Raw(Some("k"), Text(SECRET_REDACTED), Some("int"), None, true),
                         Raw(Some("k"), Text("5"), None, None, false)];
      var once := Restore(map[], raws, 0);
      "k" in once && "k" in Restore(once, raws, 0) && Restore(once, raws, 0)["k"].kind != once["k"].kind
  {
    var raws := [Raw(Some("k"), Text(SECRET_REDACTED), Some("int"), None, true),
                 Raw(Some("k"), Text("5"), None, None, false)];
    var once := Restore(map[], raws, 0);
    assert RestoreFirst(map[], raws, 0, 1) == map[];
    assert once["k"] == Setting(Some("5"), DEFAULT_TYPE, "", false, 0);
    assert RestoreFirst(once, raws, 0, 0) == once;
    var again := RestoreFirst(once, raws, 0, 1);
    assert again == Upsert(once, raws[0], 0);
    assert again["k"].kind == "int";
  }

  /******* Counts *******/

  function UsableRows(raws: seq<Raw>, n: nat): (m: nat)
    requires n <= |raws|
    ensures m <= n
  {
    if n == 0 then 0 else UsableRows(raws, n - 1) + if Usable(raws[n - 1]) then 1 else 0
  }

  // Every row with a key is counted once, as created, updated or skipped; created is the number of new keys.
  lemma {:induction false} CountsAddUp(t: Table, raws: seq<Raw>, now: int, n: nat)
    requires n <= |raws|
    ensures var c := CountsFirst(t, raws, now, n);
      && c.created + c.updated + c.skippedRedactedMissing == UsableRows(raws, n)
      && c.redactedPreserved <= c.updated
      && |RestoreFirst(t, raws, now, n)| == |t| + c.created
  {
    if n > 0 {
      CountsAddUp(t, raws, now, n - 1);
      UpsertSize(RestoreFirst(t, raws, now, n - 1), raws[n - 1], now);
    }
  }

  lemma UpsertSize(t: Table, raw: Raw, now: int)
    ensures |Upsert(t, raw, now)| == |t| + if Usable(raw) && raw.key.value !in t && !Redacted(raw) then 1 else 0
  {
  }

  // How the row at position i is counted, from the table at the start and the rows before it: its key is there by then
  // if the table had it or an earlier row carried a value for it.
  predicate There(t: Table, raws: seq<Raw>, i: nat)
    requires i < |raws| && Usable(raws[i])
  {
    raws[i].key.value in t || LastValue(raws, raws[i].key.value, i).Some?
  }

  predicate RowIs(t: Table, raws: seq<Raw>, i: nat, there: bool, marker: bool)
    requires i < |raws|
  {
    Usable(raws[i]) && There(t, raws, i) == there && (raws[i].value == Text("<redacted>")) == marker
  }

  function RowsWhere(t: Table, raws: seq<Raw>, n: nat, there: bool, marker: bool): nat
    requires n <= |raws|
  {
    if n == 0 then 0 else RowsWhere(t, raws, n - 1, there, marker) + if RowIs(t, raws, n - 1, there, marker) then 1 else 0
  }

  // Created are the rows that carry a value for a key that is not there yet, updated the rows whose key is there,
  // preserved those of them that carry the marker, and skipped the rows that carry the marker for a key that is not.
  lemma {:induction false} CountsExactly(t: Table, raws: seq<Raw>, now: int, n: nat)
    requires n <= |raws|
    ensures var c := CountsFirst(t, raws, now, n);
      && c.created == RowsWhere(t, raws, n, false, false)
      && c.skippedRedactedMissing == RowsWhere(t, raws, n, false, true)
      && c.redactedPreserved == RowsWhere(t, raws, n, true, true)
      && c.updated == RowsWhere(t, raws, n, true, true) + RowsWhere(t, raws, n, true, false)
  {
    if n > 0 {
      CountsExactly(t, raws, now, n - 1);
      if Usable(raws[n - 1]) {
        RestoredValue(t, raws, now, n - 1, raws[n - 1].key.value);
      }
    }
  }

  // So the three counts add up to the number of rows exactly when every row has a key.
  lemma {:induction false} AllRowsCountedIff(raws: seq<Raw>, n: nat)
    requires n <= |raws|
    ensures UsableRows(raws, n) == n <==> forall i :: 0 <= i < n ==> Usable(raws[i])
  {
    if n > 0 {
      AllRowsCountedIff(raws, n - 1);
    }
  }

  /******* Export followed by restore *******/

  // The value an export carries for a key: none if it is secret, or if it happens to be the marker itself.
  function Carried(s: Setting): Option<Option<string>> {
    if s.isSecret || s.value == Some(SECRET_REDACTED) then None else Some(s.value)
  }

  lemma {:induction false} LastValueOfExport(s: Table, order: seq<string>, n: nat, key: string)
    requires Listing(order, s) && n <= |order|
    ensures LastValue(Export(s, order), key, n) == if key != "" && key in order[..n] then Carried(s[key]) else None
  {
    if n > 0 {
      LastValueOfExport(s, order, n - 1, key);
      assert order[..n] == order[..n - 1] + [order[n - 1]];
      assert order[n - 1] in order;
      if key == order[n - 1] {
        assert key !in order[..n - 1];
      }
    }
  }

  // An export of s restored into t: the values s shows become t's; secrets and keys s does not have stay as t has them;
  // a secret t does not have is not created.
  lemma ExportedValuesArrive(s: Table, order: seq<string>, t: Table, now: int, key: string)
    requires Listing(order, s) && key != ""
    ensures var t' := Restore(t, Export(s, order), now);
      && (key in t' <==> key in t || (key in s && Carried(s[key]).Some?))
      && (key in s && Carried(s[key]).Some? ==> t'[key].value == s[key].value)
      && (key in t && !(key in s && Carried(s[key]).Some?) ==> t'[key].value == t[key].value)
  {
    LastValueOfExport(s, order, |order|, key);
    assert order[..|order|] == order;
    RestoredValue(t, Export(s, order), now, |order|, key);
  }

  predicate SameButTime(a: Setting, b: Setting) {
    a == b.(updatedAt := a.updatedAt)
  }

  // Restoring a table's own export into it changes nothing but time stamps.
  lemma {:induction false} OwnExportIsIdentity(t: Table, order: seq<string>, now: int, n: nat, key: string)
    requires Listing(order, t) && n <= |order|
    ensures var t' := RestoreFirst(t, Export(t, order), now, n);
      (key in t' <==> key in t) && (key in t ==> SameButTime(t'[key], t[key]))
  {
    if n > 0 {
      OwnExportIsIdentity(t, order, now, n - 1, key);
      assert order[n - 1] in order;
    }
  }

  // The other fields of a row that is there after the restore are the exported ones; an empty type is not taken over.
  lemma {:induction false} ExportedFieldsArrive(s: Table, order: seq<string>, t: Table, now: int, n: nat, j: nat)
    requires Listing(order, s) && j < n <= |order| && order[j] != ""
    ensures order[j] in order
    ensures var key, t' := order[j], RestoreFirst(t, Export(s, order), now, n);
      key in t' ==>
        && t'[key].description == s[key].description
        && t'[key].isSecret == s[key].isSecret
        && t'[key].updatedAt == now
        && (s[key].kind != "" ==> t'[key].kind == s[key].kind)
  {
    assert order[j] in order;
    if j < n - 1 {
      ExportedFieldsArrive(s, order, t, now, n - 1, j);
    }
  }

  predicate SameForExport(a: Setting, b: Setting) {
    a.isSecret == b.isSecret && a.kind == b.kind && a.description == b.description && (!a.isSecret ==> a.value == b.value)
  }

  // Nothing of a secret's value reaches the export: two tables that differ in secret values only export the same rows,
  // and conversely.
  lemma SecretsDoNotLeak(s: Table, t: Table, order: seq<string>)
    requires Listing(order, s) && Listing(order, t)
    ensures (forall k :: k in order ==> SameForExport(s[k], t[k])) <==> Export(s, order) == Export(t, order)
  {
    var a, b := Export(s, order), Export(t, order);
    if forall k :: k in order ==> SameForExport(s[k], t[k]) {
      forall i | 0 <= i < |order| ensures a[i] == b[i] {
        assert order[i] in order;
      }
    }
    if a == b {
      forall k | k in order ensures SameForExport(s[k], t[k]) {
        var i :| 0 <= i < |order| && order[i] == k;
        assert a[i] == b[i];
      }
    }
  }
}
