/**
 `canonicalize_legacy_finding_keys` of `backend/alembic/versions/022_phase20_finding_key.py`: of the rows that share a
 project and a key, the earliest keeps the key and the others lose it, in the column and in the JSON text.
 */
module FindingKeys {
  import opened Options

  /** A JSON value: a text, or some other value with its own literal, `str()` and truth value. */
  datatype Json = Text(text: string) | Other(literal: string, shown: string, truthy: bool)

  /** `str(value or "")`. */
  function Shown(j: Json): string {
    match j
    case Text(text) => text
    case Other(_, shown, truthy) => if truthy then shown else ""
  }

  type Object = map<string, Json>

  /** `loads` gives the object a text denotes, if it denotes one. */
  datatype Codec = Codec(loads: string -> Option<Object>, dumps: Object -> string, strip: string -> string)

  ghost predicate Faithful(c: Codec) {
    && (forall o :: c.dumps(o) != "" && c.loads(c.dumps(o)) == Some(o))
    && (forall s :: c.strip(c.strip(s)) == c.strip(s))
    && c.strip("") == ""
  }

  datatype Row = Row(id: string, projectId: Option<string>, createdAt: string, intelligence: string, findingKey: Option<string>)

  const KEY := "finding_key"

  /** `_json_object`. */
  function JsonObject(c: Codec, raw: string): Object {
    if raw == "" then map[]
    else
      var loaded := c.loads(raw);
      if loaded.Some? then loaded.value else map[]
  }

  /** `_json_key`. */
  function JsonKey(c: Codec, raw: string): string {
    var o := JsonObject(c, raw);
    c.strip(if KEY in o then Shown(o[KEY]) else "")
  }

  function KeyOf(c: Codec, row: Row): string {
    var column := c.strip(if row.findingKey.Some? then row.findingKey.value else "");
    if column != "" then column else JsonKey(c, row.intelligence)
  }

  /** The key of a row: the column's, or, if that is blank, what the JSON text holds under `finding_key`, or none. */
  lemma KeyIs(c: Codec, row: Row)
    requires c.strip("") == ""
    ensures var column := if row.findingKey.Some? then row.findingKey.value else "";
            var loaded := if row.intelligence == "" then None else c.loads(row.intelligence);
            KeyOf(c, row) ==
              if c.strip(column) != "" then c.strip(column)
              else if loaded.None? || "finding_key" !in loaded.value then ""
              else
                match loaded.value["finding_key"]
                case Text(text) => c.strip(text)
                case Other(_, shown, truthy) => if truthy then c.strip(shown) else ""
  {
  }

  function WithoutKey(o: Object): Object {
    o - {KEY}
  }

  function Stripped(c: Codec, row: Row): Row {
    row.(findingKey := None, intelligence := c.dumps(WithoutKey(JsonObject(c, row.intelligence))))
  }

  function Keyed(c: Codec, row: Row, key: string): Row {
    row.(findingKey := Some(key), intelligence := c.dumps(JsonObject(c, row.intelligence)[KEY := Text(key)]))
  }

  // ----- order ------------------------------------------------------------------------------------------------------

  /** Lexicographic order of texts. */
  predicate TextLeq(a: string, b: string) {
    a == "" || (b != "" && (a[0] < b[0] || (a[0] == b[0] && TextLeq(a[1..], b[1..]))))
  }

  /** One text begins the other, or the first difference decides. */
  lemma {:induction false} TextLeqIff(a: string, b: string)
    ensures TextLeq(a, b) <==> a <= b || exists k :: 0 <= k < |a| && k < |b| && a[..k] == b[..k] && a[k] < b[k]
  {
    if a != "" && b != "" && a[0] == b[0] {
      TextLeqIff(a[1..], b[1..]);
      var s, t := a[1..], b[1..];
      assert a == [a[0]] + s && b == [b[0]] + t;
      if k :| 0 <= k < |s| && k < |t| && s[..k] == t[..k] && s[k] < t[k] {
        assert a[..k + 1] == [a[0]] + s[..k] && b[..k + 1] == [b[0]] + t[..k] && a[k + 1] < b[k + 1];
      }
      if k :| 0 <= k < |a| && k < |b| && a[..k] == b[..k] && a[k] < b[k] {
        assert s[..k - 1] == a[..k][1..] && t[..k - 1] == b[..k][1..] && s[k - 1] < t[k - 1];
      }
    } else if a != "" && b != "" {
      assert a[0] < b[0] ==> a[..0] == b[..0];
      FirstDiffers(a, b);
    }
  }

  lemma FirstDiffers(a: string, b: string)
    requires a != "" && b != "" && a[0] != b[0]
    ensures forall k :: 0 < k < |a| && k < |b| ==> a[..k] != b[..k]
  {
    forall k | 0 < k < |a| && k < |b| ensures a[..k] != b[..k] {
      assert a[..k][0] == a[0] && b[..k][0] == b[0];
    }
  }

  /** Order of the sort key `(created_at, id)`. */
  predicate Leq(a: Row, b: Row) {
    if a.createdAt == b.createdAt then TextLeq(a.id, b.id) else TextLeq(a.createdAt, b.createdAt)
  }

  lemma {:induction false} TextOrder(a: string, b: string, c: string)
    ensures TextLeq(a, b) || TextLeq(b, a)
    ensures TextLeq(a, b) && TextLeq(b, a) ==> a == b
    ensures TextLeq(a, b) && TextLeq(b, c) ==> TextLeq(a, c)
  {
    if a != "" && b != "" {
      TextOrder(a[1..], b[1..], if c != "" then c[1..] else "");
      assert a == [a[0]] + a[1..] && b == [b[0]] + b[1..];
    }
  }

  lemma LeqOrder(a: Row, b: Row, c: Row)
    ensures Leq(a, b) || Leq(b, a)
    ensures Leq(a, b) && Leq(b, c) ==> Leq(a, c)
  {
    hide TextLeq;
    TextOrder(a.createdAt, b.createdAt, c.createdAt);
    TextOrder(b.createdAt, c.createdAt, a.createdAt);
    TextOrder(a.id, b.id, c.id);
  }

  function Insert(row: Row, sorted: seq<Row>): seq<Row> {
    if sorted == [] || Leq(row, sorted[0]) then [row] + sorted else [sorted[0]] + Insert(row, sorted[1..])
  }

  /** `sorted`: a stable sort. */
  function SortRows(rows: seq<Row>): seq<Row> {
    if rows == [] then [] else Insert(rows[0], SortRows(rows[1..]))
  }

  predicate Ordered(rows: seq<Row>) {
    forall k :: 0 <= k < |rows| - 1 ==> Leq(rows[k], rows[k + 1])
  }

  lemma {:induction false} InsertOrdered(row: Row, sorted: seq<Row>)
    requires Ordered(sorted)
    ensures Ordered(Insert(row, sorted)) && multiset(Insert(row, sorted)) == multiset{row} + multiset(sorted)
    ensures Insert(row, sorted)[0] == row || (sorted != [] && Insert(row, sorted)[0] == sorted[0])
  {
    hide Leq;
    if sorted != [] && !Leq(row, sorted[0]) {
      LeqOrder(row, sorted[0], row);
      InsertOrdered(row, sorted[1..]);
      assert sorted == [sorted[0]] + sorted[1..];
      var rest := Insert(row, sorted[1..]);
      forall k | 0 <= k < |rest| ensures Leq(([sorted[0]] + rest)[k], ([sorted[0]] + rest)[k + 1]) {
        if k == 0 && rest[0] != row { assert Leq(sorted[0], sorted[1]); }
        if k > 0 { assert Leq(rest[k - 1], rest[k]); }
      }
    }
  }

  lemma {:induction false} SortedIsOrdered(rows: seq<Row>)
    ensures Ordered(SortRows(rows)) && multiset(SortRows(rows)) == multiset(rows)
  {
    hide Leq;
    if rows != [] {
      SortedIsOrdered(rows[1..]);
      InsertOrdered(rows[0], SortRows(rows[1..]));
      assert rows == [rows[0]] + rows[1..];
    }
  }

  lemma {:induction false} SortOrdered(rows: seq<Row>)
    requires Ordered(rows)
    ensures SortRows(rows) == rows
  {
    hide Leq;
    if rows != [] {
      forall k | 0 <= k < |rows[1..]| - 1 ensures Leq(rows[1..][k], rows[1..][k + 1]) {
        assert Leq(rows[k + 1], rows[k + 2]);
      }
      SortOrdered(rows[1..]);
      assert |rows| > 1 ==> Leq(rows[0], rows[1]);
    }
  }

  lemma {:induction false} OrderedPair(rows: seq<Row>, j: nat, k: nat)
    requires Ordered(rows) && j < k < |rows|
    ensures Leq(rows[j], rows[k])
    decreases k
  {
    hide Leq;
    if j < k - 1 {
      OrderedPair(rows, j, k - 1);
      LeqOrder(rows[j], rows[k - 1], rows[k]);
    }
  }

  // ----- the pass over the sorted rows ----------------------------------------------------------------------------------

  type Pair = (Option<string>, string)

  function PairOf(c: Codec, row: Row): Pair {
    (row.projectId, KeyOf(c, row))
  }

  /** Row `k` is the first of `sorted` with its project and key. */
  predicate First(c: Codec, sorted: seq<Row>, k: nat)
    requires k < |sorted|
  {
    KeyOf(c, sorted[k]) != "" && forall j :: 0 <= j < k ==> PairOf(c, sorted[j]) != PairOf(c, sorted[k])
  }

  /** What becomes of the sorted rows. */
  ghost predicate Canonical(c: Codec, sorted: seq<Row>, updated: seq<Row>) {
    && |updated| == |sorted|
    && forall k :: 0 <= k < |sorted| ==>
         updated[k] == if First(c, sorted, k) then Keyed(c, sorted[k], KeyOf(c, sorted[k])) else Stripped(c, sorted[k])
  }

  /** `canonicalize_legacy_finding_keys`. */
  method CanonicalizeLegacyFindingKeys(c: Codec, rows: seq<Row>) returns (updated: seq<Row>)
    ensures Canonical(c, SortRows(rows), updated)
  {
    hide KeyOf, Keyed, Stripped, SortRows;
    var ordered := SortRows(rows);
    var seen: set<Pair> := {};
    updated := [];
    for k := 0 to |ordered|
      invariant |updated| == k
      invariant forall m :: 0 <= m < k ==>
        updated[m] == if First(c, ordered, m) then Keyed(c, ordered[m], KeyOf(c, ordered[m])) else Stripped(c, ordered[m])
      invariant forall p :: p in seen <==> p.1 != "" && exists m :: 0 <= m < k && PairOf(c, ordered[m]) == p
    {
      var row := ordered[k];
      var key := KeyOf(c, row);
      if key == "" {
        updated := updated + [Stripped(c, row)];
        continue;
      }
      var pair := (row.projectId, key);
      assert pair == PairOf(c, ordered[k]);
      if pair in seen {
        updated := updated + [Stripped(c, row)];
        continue;
      }
      seen := seen + {pair};
      updated := updated + [Keyed(c, row, key)];
    }
  }

  /** The rows come back in order, each with its identity, project and date; no row is lost or repeated. */
  lemma RowsAreKept(c: Codec, rows: seq<Row>, updated: seq<Row>)
    requires Canonical(c, SortRows(rows), updated)
    ensures multiset(SortRows(rows)) == multiset(rows)
    ensures Ordered(updated)
    ensures |updated| == |rows|
    ensures forall k :: 0 <= k < |updated| ==>
              updated[k] == SortRows(rows)[k].(findingKey := updated[k].findingKey, intelligence := updated[k].intelligence)
  {
    hide SortRows, KeyOf, TextLeq, First;
    SortedIsOrdered(rows);
    assert |SortRows(rows)| == |multiset(SortRows(rows))| == |multiset(rows)| == |rows|;
    forall k | 0 <= k < |updated| - 1 ensures Leq(updated[k], updated[k + 1]) {
      assert Leq(SortRows(rows)[k], SortRows(rows)[k + 1]);
    }
  }

  /** No two rows that keep a key share project and key. */
  lemma KeysAreUnique(c: Codec, rows: seq<Row>, updated: seq<Row>, j: nat, k: nat)
    requires Canonical(c, SortRows(rows), updated)
    requires j < k < |updated| && updated[j].findingKey.Some? && updated[k].findingKey.Some?
    ensures (updated[j].projectId, updated[j].findingKey) != (updated[k].projectId, updated[k].findingKey)
  {
    hide SortRows, KeyOf;
    var s := SortRows(rows);
    assert First(c, s, k) && First(c, s, j);
    assert PairOf(c, s[j]) != PairOf(c, s[k]);
  }

  /** A row with a key keeps it exactly if it is the least by `(created_at, id)` of those that share it. */
  lemma SurvivorIsLeast(c: Codec, rows: seq<Row>, updated: seq<Row>, j: nat, k: nat)
    requires Canonical(c, SortRows(rows), updated)
    requires j < |updated| && k < |updated| && updated[k].findingKey.Some?
    requires PairOf(c, SortRows(rows)[j]) == PairOf(c, SortRows(rows)[k])
    ensures updated[k].findingKey == Some(KeyOf(c, SortRows(rows)[k]))
    ensures Leq(SortRows(rows)[k], SortRows(rows)[j])
    ensures j != k ==> updated[j].findingKey == None
  {
    hide SortRows, KeyOf, Leq;
    var s := SortRows(rows);
    SortedIsOrdered(rows);
    assert First(c, s, k) && k <= j;
    if k < j {
      OrderedPair(s, k, j);
      assert !First(c, s, j);
    } else {
      LeqOrder(s[k], s[k], s[k]);
    }
  }

  /** Every key that occurs survives on some row. */
  lemma {:induction false} KeySurvives(c: Codec, rows: seq<Row>, updated: seq<Row>, j: nat)
    requires Canonical(c, SortRows(rows), updated)
    requires j < |updated| && KeyOf(c, SortRows(rows)[j]) != ""
    ensures exists k :: 0 <= k <= j && PairOf(c, SortRows(rows)[k]) == PairOf(c, SortRows(rows)[j])
                        && updated[k].findingKey == Some(KeyOf(c, SortRows(rows)[j]))
    decreases j
  {
    hide SortRows, KeyOf;
    var s := SortRows(rows);
    if !First(c, s, j) {
      var m :| 0 <= m < j && PairOf(c, s[m]) == PairOf(c, s[j]);
      KeySurvives(c, rows, updated, m);
    }
  }

  /** The JSON text says what the column says, and its other fields are as they were. */
  lemma JsonFollowsColumn(c: Codec, rows: seq<Row>, updated: seq<Row>, k: nat)
    requires Faithful(c) && Canonical(c, SortRows(rows), updated) && k < |updated|
    ensures var o := JsonObject(c, updated[k].intelligence);
            && (updated[k].findingKey.None? ==> KEY !in o)
            && (updated[k].findingKey.Some? ==> KEY in o && o[KEY] == Text(updated[k].findingKey.value))
            && WithoutKey(o) == WithoutKey(JsonObject(c, SortRows(rows)[k].intelligence))
  {
    hide SortRows, KeyOf, First;
    var s := SortRows(rows)[k];
    var o := JsonObject(c, s.intelligence);
    if updated[k].findingKey.Some? {
      assert JsonObject(c, updated[k].intelligence) == o[KEY := Text(KeyOf(c, s))];
    } else {
      assert JsonObject(c, updated[k].intelligence) == WithoutKey(o);
    }
  }

  lemma KeyIsStripped(c: Codec, row: Row)
    requires Faithful(c)
    ensures c.strip(KeyOf(c, row)) == KeyOf(c, row)
  {
  }

  lemma UpdatedKey(c: Codec, rows: seq<Row>, updated: seq<Row>, k: nat)
    requires Faithful(c) && Canonical(c, SortRows(rows), updated) && k < |updated|
    ensures KeyOf(c, updated[k]) == if updated[k].findingKey.Some? then updated[k].findingKey.value else ""
  {
    JsonFollowsColumn(c, rows, updated, k);
    hide SortRows, First;
    KeyIsStripped(c, SortRows(rows)[k]);
  }

  /** Running the clean-up on its own result changes nothing. */
  lemma CanonicalizingAgainChangesNothing(c: Codec, rows: seq<Row>, updated: seq<Row>, again: seq<Row>)
    requires Faithful(c)
    requires Canonical(c, SortRows(rows), updated) && Canonical(c, SortRows(updated), again)
    ensures again == updated
  {
    hide SortRows, KeyOf, Canonical;
    RowsAreKept(c, rows, updated);
    SortOrdered(updated);
    LengthAgain(c, updated, again);
    forall k | 0 <= k < |updated| ensures again[k] == updated[k] { RowAgain(c, rows, updated, again, k); }
  }

  lemma LengthAgain(c: Codec, updated: seq<Row>, again: seq<Row>)
    requires Canonical(c, updated, again)
    ensures |again| == |updated|
  {
  }

  lemma RowAgain(c: Codec, rows: seq<Row>, updated: seq<Row>, again: seq<Row>, k: nat)
    requires Faithful(c) && Canonical(c, SortRows(rows), updated) && Canonical(c, updated, again)
    requires k < |updated|
    ensures again[k] == updated[k]
  {
    hide SortRows, KeyOf;
    UpdatedKey(c, rows, updated, k);
    if updated[k].findingKey.Some? {
      SameKeyed(c, rows, updated, k);
      assert First(c, updated, k) by {
        forall j | 0 <= j < k ensures PairOf(c, updated[j]) != PairOf(c, updated[k]) {
          UpdatedKey(c, rows, updated, j);
          if updated[j].findingKey.Some? { KeysAreUnique(c, rows, updated, j, k); }
        }
      }
    } else {
      SameStripped(c, rows, updated, k);
      assert !First(c, updated, k);
    }
  }

  lemma SameKeyed(c: Codec, rows: seq<Row>, updated: seq<Row>, k: nat)
    requires Faithful(c) && Canonical(c, SortRows(rows), updated) && k < |updated| && updated[k].findingKey.Some?
    ensures updated[k].findingKey.value != "" && Keyed(c, updated[k], updated[k].findingKey.value) == updated[k]
  {
    hide SortRows, KeyOf;
    var s := SortRows(rows)[k];
    var o, key := JsonObject(c, s.intelligence), KeyOf(c, s);
    assert updated[k].intelligence == c.dumps(o[KEY := Text(key)]);
    assert o[KEY := Text(key)][KEY := Text(key)] == o[KEY := Text(key)];
  }

  lemma SameStripped(c: Codec, rows: seq<Row>, updated: seq<Row>, k: nat)
    requires Faithful(c) && Canonical(c, SortRows(rows), updated) && k < |updated| && updated[k].findingKey.None?
    ensures Stripped(c, updated[k]) == updated[k]
  {
    hide SortRows, KeyOf, First;
    var o := JsonObject(c, SortRows(rows)[k].intelligence);
    assert updated[k].intelligence == c.dumps(WithoutKey(o));
    assert WithoutKey(WithoutKey(o)) == WithoutKey(o);
  }
}
