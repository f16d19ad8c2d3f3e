/** Translation of a Lua table to a tuple, directed by the types of the tuple and by a tuple of keys. */
module ObjectToTuple {
  import opened Bytes
  import opened Collections

  // ---------- Lua values, shapes and results ----------

  /** A Lua value; a table lists its entries in iteration order. `Atom` is any value that is no table and not nil. */
  datatype Lua = Nil | Atom(code: int) | Table(entries: seq<Entry>)

  datatype Entry = Entry(key: Key, value: Lua)

  datatype Key = Name(text: string) | Position(index: int)

  /** A C++ type and its values; luabind's conversion to them is a parameter of the translation. */
  type CppType = nat

  type CppValue = int

  type Cast = (CppType, Lua) -> Option<CppValue>

  /** The element types of the result with the keys that mirror them. */
  datatype Shape = Single(cppType: CppType) | Rows(fields: seq<Field>)

  datatype Field = Field(key: string, shape: Shape)

  datatype Item = Value(value: CppValue) | Vector(rows: seq<seq<Item>>)

  /** `table[key]`: nil when the key is missing. */
  function Lookup(entries: seq<Entry>, key: string): Lua {
    if entries == [] then Nil
    else if entries[0].key == Name(key) then entries[0].value
    else Lookup(entries[1..], key)
  }

  /** Tuples of keys are not empty: the recorder starts at the last key. */
  predicate Nonempty(fields: seq<Field>)
    decreases fields
  {
    fields != [] && forall i :: 0 <= i < |fields| ==> fields[i].shape.Rows? ==> Nonempty(fields[i].shape.fields)
  }

  // ---------- key paths ----------

  /** What a key recorder prints: `key`, or `parent[index].key`. */
  datatype Path = Root(key: string) | Inner(parent: Path, index: nat, key: string)

  /** Where a tuple is filled: at the top, or in a row of the vector at a path. */
  datatype Place = Top | Row(parent: Path, index: nat)

  function PathAt(place: Place, key: string): Path {
    if place.Top? then Root(key) else Inner(place.parent, place.index, key)
  }

  function Digits(n: nat): string {
    if n < 10 then ["0123456789"[n]] else Digits(n / 10) + ["0123456789"[n % 10]]
  }

  function Rendered(p: Path): string {
    match p
    case Root(key) => key
    case Inner(parent, index, key) => Rendered(parent) + "[" + Digits(index) + "]" + "." + key
  }

  /** Keys without the characters that the rendering puts between them. */
  predicate Plain(p: Path) {
    '.' !in p.key && '[' !in p.key && (p.Inner? ==> Plain(p.parent))
  }

  lemma {:induction false} DigitsOnly(n: nat)
    ensures '.' !in Digits(n) && '[' !in Digits(n)
  {
    if n >= 10 {
      DigitsOnly(n / 10);
    }
  }

  lemma {:induction false} DigitsTell(m: nat, n: nat)
    requires Digits(m) == Digits(n)
    ensures m == n
    decreases m
  {
    var k := |Digits(m)| - 1;
    assert Digits(m)[k] == "0123456789"[m % 10] && Digits(n)[k] == "0123456789"[n % 10];
    DigitsFront(m);
    DigitsFront(n);
    if m >= 10 && n >= 10 {
      DigitsTell(m / 10, n / 10);
    }
  }

  lemma DigitsFront(n: nat)
    ensures Digits(n)[..|Digits(n)| - 1] == if n < 10 then [] else Digits(n / 10)
    ensures |Digits(n)| == 1 <==> n < 10
  {
    if n >= 10 {
      assert |Digits(n / 10)| > 0;
    }
  }

  lemma NoneAfter(s: string, t: string, c: char)
    requires c !in t
    ensures forall i :: |s| < i < |s| + 1 + |t| ==> (s + [c] + t)[i] != c
  {
    forall i | |s| < i < |s| + 1 + |t| ensures (s + [c] + t)[i] != c {
      assert (s + [c] + t)[i] == t[i - |s| - 1];
    }
  }

  lemma SplitAtLast(s: string, t: string, s': string, t': string, c: char)
    requires c !in t && c !in t' && s + [c] + t == s' + [c] + t'
    ensures s == s' && t == t'
  {
    var whole := s + [c] + t;
    NoneAfter(s, t, c);
    NoneAfter(s', t', c);
    assert whole[|s|] == c && whole[|s'|] == c;
    assert s == whole[..|s|] && t == whole[|s| + 1..];
    assert s' == whole[..|s'|] && t' == whole[|s'| + 1..];
  }

  /** What is printed determines the path. */
  lemma {:induction false} RenderingTells(p: Path, q: Path)
    requires Plain(p) && Plain(q) && Rendered(p) == Rendered(q)
    ensures p == q
    decreases p
  {
    if p.Inner? && q.Inner? {
      var a, b := Rendered(p.parent) + "[" + Digits(p.index), Rendered(q.parent) + "[" + Digits(q.index);
      DigitsOnly(p.index);
      DigitsOnly(q.index);
      SplitAtLast(a + "]", p.key, b + "]", q.key, '.');
      assert (a + "]")[..|a|] == a && (b + "]")[..|b|] == b;
      SplitAtLast(Rendered(p.parent), Digits(p.index), Rendered(q.parent), Digits(q.index), '[');
      DigitsTell(p.index, q.index);
      RenderingTells(p.parent, q.parent);
    } else if p.Inner? {
      InnerHasDot(p);
    } else if q.Inner? {
      InnerHasDot(q);
    }
  }

  lemma InnerHasDot(p: Path)
    requires p.Inner?
    ensures '.' in Rendered(p)
  {
    var front := Rendered(p.parent) + "[" + Digits(p.index) + "]";
    assert Rendered(p)[|front|] == '.';
  }

  // ---------- translate ----------

  /** The exception carries a key path, unless the outermost value is no table. */
  datatype Outcome<T> = Done(value: T) | Failed(at: Option<Path>)

  function Filled(cast: Cast, fields: seq<Field>, n: nat, table: seq<Entry>, place: Place): Outcome<seq<Item>>
    requires n <= |fields| && Nonempty(fields)
    decreases fields, n
  {
    if n == 0 then Done([]) else
      match PutItem(cast, fields[n - 1], table, PathAt(place, fields[n - 1].key))
      case Failed(at) => Failed(at)
      case Done(item) =>
        match Filled(cast, fields, n - 1, table, place)
        case Failed(at) => Failed(at)
        case Done(items) => Done(items + [item])
  }

  function PutItem(cast: Cast, field: Field, table: seq<Entry>, path: Path): Outcome<Item>
    requires field.shape.Rows? ==> Nonempty(field.shape.fields)
    decreases field
  {
    var v := Lookup(table, field.key);
    match field.shape
    case Single(t) => if cast(t, v).Some? then Done(Value(cast(t, v).value)) else Failed(Some(path))
    case Rows(fs) =>
      if !v.Table? then Failed(Some(path)) else
        match PutRows(cast, fs, v.entries, |v.entries|, path)
        case Failed(at) => Failed(at)
        case Done(rows) => Done(Vector(rows))
  }

  /** The first n rows. */
  function PutRows(cast: Cast, fields: seq<Field>, entries: seq<Entry>, n: nat, path: Path): Outcome<seq<seq<Item>>>
    requires n <= |entries| && Nonempty(fields)
    decreases fields, |fields| + 1, n
  {
    if n == 0 then Done([]) else
      match PutRows(cast, fields, entries, n - 1, path)
      case Failed(at) => Failed(at)
      case Done(rows) =>
        match RowFilled(cast, fields, entries[n - 1].value, Row(path, n))
        case Failed(at) => Failed(at)
        case Done(items) => Done(rows + [items])
  }

  function RowFilled(cast: Cast, fields: seq<Field>, row: Lua, place: Place): Outcome<seq<Item>>
    requires Nonempty(fields)
    decreases fields, |fields| + 1, 0
  {
    if row.Table? then Filled(cast, fields, |fields|, row.entries, place)
    else Failed(Some(PathAt(place, fields[|fields| - 1].key)))
  }

  function Translated(cast: Cast, fields: seq<Field>, obj: Lua): Outcome<seq<Item>>
    requires Nonempty(fields)
  {
    if obj.Table? then Filled(cast, fields, |fields|, obj.entries, Top) else Failed(None)
  }

  // ---------- which tables have the shape, and what they hold ----------

  /** The value is of the shape and the item is what it holds. */
  predicate ItemMatches(cast: Cast, shape: Shape, v: Lua, item: Item)
    decreases shape
  {
    match shape
    case Single(t) => item.Value? && cast(t, v) == Some(item.value)
    case Rows(fs) =>
      && v.Table? && item.Vector? && |item.rows| == |v.entries|
      && forall r :: 0 <= r < |v.entries| ==> v.entries[r].value.Table? && Matches(cast, fs, v.entries[r].value.entries, item.rows[r])
  }

  predicate Matches(cast: Cast, fields: seq<Field>, table: seq<Entry>, items: seq<Item>)
    decreases fields
  {
    && |items| == |fields|
    && forall i :: 0 <= i < |fields| ==> ItemMatches(cast, fields[i].shape, Lookup(table, fields[i].key), items[i])
  }

  predicate MatchesUpTo(cast: Cast, fields: seq<Field>, n: nat, table: seq<Entry>, items: seq<Item>)
    requires n <= |fields|
  {
    && |items| == n
    && forall i :: 0 <= i < n ==> ItemMatches(cast, fields[i].shape, Lookup(table, fields[i].key), items[i])
  }

  predicate RowsMatch(cast: Cast, fields: seq<Field>, entries: seq<Entry>, n: nat, rows: seq<seq<Item>>)
    requires n <= |entries|
  {
    && |rows| == n
    && forall r :: 0 <= r < n ==> entries[r].value.Table? && Matches(cast, fields, entries[r].value.entries, rows[r])
  }

  lemma {:induction false} FilledIff(cast: Cast, fields: seq<Field>, n: nat, table: seq<Entry>, place: Place, items: seq<Item>)
    requires n <= |fields| && Nonempty(fields)
    ensures Filled(cast, fields, n, table, place) == Done(items) <==> MatchesUpTo(cast, fields, n, table, items)
    decreases fields, n
  {
    if n > 0 && |items| > 0 {
      var path := PathAt(place, fields[n - 1].key);
      var k := |items| - 1;
      PutItemIff(cast, fields[n - 1], table, path, items[k]);
      FilledIff(cast, fields, n - 1, table, place, items[..k]);
      assert items == items[..k] + [items[k]];
    }
  }

  lemma {:induction false} PutItemIff(cast: Cast, field: Field, table: seq<Entry>, path: Path, item: Item)
    requires field.shape.Rows? ==> Nonempty(field.shape.fields)
    ensures PutItem(cast, field, table, path) == Done(item) <==> ItemMatches(cast, field.shape, Lookup(table, field.key), item)
    decreases field
  {
    var v := Lookup(table, field.key);
    if field.shape.Rows? && v.Table? && item.Vector? {
      PutRowsIff(cast, field.shape.fields, v.entries, |v.entries|, path, item.rows);
    }
  }

  lemma {:induction false} PutRowsIff(cast: Cast, fields: seq<Field>, entries: seq<Entry>, n: nat, path: Path, rows: seq<seq<Item>>)
    requires n <= |entries| && Nonempty(fields)
    ensures PutRows(cast, fields, entries, n, path) == Done(rows) <==> RowsMatch(cast, fields, entries, n, rows)
    decreases fields, |fields| + 1, n
  {
    if n > 0 && |rows| > 0 {
      var k := |rows| - 1;
      var row := entries[n - 1].value;
      PutRowsIff(cast, fields, entries, n - 1, path, rows[..k]);
      if row.Table? {
        FilledIff(cast, fields, |fields|, row.entries, Row(path, n), rows[k]);
      }
      assert rows == rows[..k] + [rows[k]];
    }
  }

  /** The translation succeeds exactly on tables of the shape, with exactly what they hold. */
  lemma {:induction false} TranslatesExactly(cast: Cast, fields: seq<Field>, obj: Lua, items: seq<Item>)
    requires Nonempty(fields)
    ensures Translated(cast, fields, obj) == Done(items) <==> obj.Table? && Matches(cast, fields, obj.entries, items)
  {
    if obj.Table? {
      FilledIff(cast, fields, |fields|, obj.entries, Top, items);
    }
  }

  // ---------- laying a result out as a table ----------

  type Push = (CppType, CppValue) -> Lua

  predicate ItemFits(shape: Shape, item: Item)
    decreases shape
  {
    match shape
    case Single(_) => item.Value?
    case Rows(fs) => item.Vector? && forall r :: 0 <= r < |item.rows| ==> Fits(fs, item.rows[r])
  }

  /** The items are a value of the tuple type. */
  predicate Fits(fields: seq<Field>, items: seq<Item>)
    decreases fields
  {
    |items| == |fields| && forall i :: 0 <= i < |fields| ==> ItemFits(fields[i].shape, items[i])
  }

  /** The keys of every tuple of keys differ. */
  predicate DistinctKeys(fields: seq<Field>)
    decreases fields
  {
    && (forall i, j :: 0 <= i < j < |fields| ==> fields[i].key != fields[j].key)
    && forall i :: 0 <= i < |fields| ==> fields[i].shape.Rows? ==> DistinctKeys(fields[i].shape.fields)
  }

  function LaidOut(push: Push, fields: seq<Field>, n: nat, items: seq<Item>): seq<Entry>
    requires n <= |fields| && Fits(fields, items)
    decreases fields, n
  {
    if n == 0 then [] else
      LaidOut(push, fields, n - 1, items) + [Entry(Name(fields[n - 1].key), LaidItem(push, fields[n - 1].shape, items[n - 1]))]
  }

  function LaidItem(push: Push, shape: Shape, item: Item): Lua
    requires ItemFits(shape, item)
    decreases shape
  {
    match shape
    case Single(t) => push(t, item.value)
    case Rows(fs) => Table(LaidRows(push, fs, |item.rows|, item.rows))
  }

  function LaidRows(push: Push, fields: seq<Field>, n: nat, rows: seq<seq<Item>>): seq<Entry>
    requires n <= |rows| && forall r :: 0 <= r < |rows| ==> Fits(fields, rows[r])
    decreases fields, |fields| + 1, n
  {
    if n == 0 then [] else
      LaidRows(push, fields, n - 1, rows) + [Entry(Position(n), Table(LaidOut(push, fields, |fields|, rows[n - 1])))]
  }

  lemma {:induction false} LookupAppend(entries: seq<Entry>, e: Entry, key: string)
    ensures Lookup(entries + [e], key) ==
      if exists i :: 0 <= i < |entries| && entries[i].key == Name(key) then Lookup(entries, key) else if e.key == Name(key) then e.value else Nil
    decreases |entries|
  {
    if entries == [] {
      assert ([] + [e])[1..] == [];
    } else if entries[0].key != Name(key) {
      LookupAppend(entries[1..], e, key);
      assert (entries + [e])[1..] == entries[1..] + [e];
      assert forall i :: 0 < i < |entries| ==> entries[i] == entries[1..][i - 1];
    }
  }

  lemma {:induction false} LaidKeys(push: Push, fields: seq<Field>, n: nat, items: seq<Item>)
    requires n <= |fields| && Fits(fields, items)
    ensures |LaidOut(push, fields, n, items)| == n
    ensures forall i :: 0 <= i < n ==> LaidOut(push, fields, n, items)[i].key == Name(fields[i].key)
    decreases n
  {
    if n > 0 {
      LaidKeys(push, fields, n - 1, items);
    }
  }

  /** With distinct keys each item is found under its own. */
  lemma {:induction false} LookupLaid(push: Push, fields: seq<Field>, n: nat, items: seq<Item>, i: nat)
    requires i < n <= |fields| && Fits(fields, items) && DistinctKeys(fields)
    ensures Lookup(LaidOut(push, fields, n, items), fields[i].key) == LaidItem(push, fields[i].shape, items[i])
    decreases n
  {
    var before := LaidOut(push, fields, n - 1, items);
    LaidKeys(push, fields, n - 1, items);
    LookupAppend(before, Entry(Name(fields[n - 1].key), LaidItem(push, fields[n - 1].shape, items[n - 1])), fields[i].key);
    if i < n - 1 {
      LookupLaid(push, fields, n - 1, items, i);
      assert before[i].key == Name(fields[i].key);
    }
  }

  lemma {:induction false} LaidRow(push: Push, fields: seq<Field>, n: nat, rows: seq<seq<Item>>, r: nat)
    requires r < n <= |rows| && forall k :: 0 <= k < |rows| ==> Fits(fields, rows[k])
    ensures |LaidRows(push, fields, n, rows)| == n
    ensures LaidRows(push, fields, n, rows)[r].value == Table(LaidOut(push, fields, |fields|, rows[r]))
    decreases n
  {
    if r < n - 1 {
      LaidRow(push, fields, n - 1, rows, r);
    } else if n > 1 {
      LaidRow(push, fields, n - 1, rows, 0);
    }
  }

  ghost predicate Inverts(cast: Cast, push: Push) {
    forall t, x :: cast(t, push(t, x)) == Some(x)
  }

  lemma {:induction false} LaidItemMatches(cast: Cast, push: Push, shape: Shape, item: Item)
    requires Inverts(cast, push) && ItemFits(shape, item)
    requires shape.Rows? ==> DistinctKeys(shape.fields)
    ensures ItemMatches(cast, shape, LaidItem(push, shape, item), item)
    decreases shape
  {
    if shape.Rows? {
      var fs := shape.fields;
      var entries := LaidRows(push, fs, |item.rows|, item.rows);
      if item.rows != [] { LaidRow(push, fs, |item.rows|, item.rows, 0); }
      forall r | 0 <= r < |item.rows|
        ensures entries[r].value.Table? && Matches(cast, fs, entries[r].value.entries, item.rows[r])
      {
        LaidRow(push, fs, |item.rows|, item.rows, r);
        LaidOutMatches(cast, push, fs, item.rows[r]);
      }
    }
  }

  lemma {:induction false} LaidOutMatches(cast: Cast, push: Push, fields: seq<Field>, items: seq<Item>)
    requires Inverts(cast, push) && Fits(fields, items) && DistinctKeys(fields)
    ensures Matches(cast, fields, LaidOut(push, fields, |fields|, items), items)
    decreases fields
  {
    var table := LaidOut(push, fields, |fields|, items);
    forall i | 0 <= i < |fields| ensures ItemMatches(cast, fields[i].shape, Lookup(table, fields[i].key), items[i]) {
      LookupLaid(push, fields, |fields|, items, i);
      LaidItemMatches(cast, push, fields[i].shape, items[i]);
    }
  }

  /** Round trip: translating a laid out result gives the result. */
  lemma {:induction false} TranslationInvertsLayout(cast: Cast, push: Push, fields: seq<Field>, items: seq<Item>)
    requires Nonempty(fields) && DistinctKeys(fields) && Inverts(cast, push) && Fits(fields, items)
    ensures Translated(cast, fields, Table(LaidOut(push, fields, |fields|, items))) == Done(items)
  {
    LaidOutMatches(cast, push, fields, items);
    TranslatesExactly(cast, fields, Table(LaidOut(push, fields, |fields|, items)), items);
  }

  // ---------- which value is reported ----------

  /** A place in a table where the shape can be missed: the item at a position, a row of it, or something inside a row. */
  datatype Spot = Spot(pos: nat, fault: Fault)

  datatype Fault = Whole | WholeRow(row: nat) | InRow(row: nat, spot: Spot)

  predicate Offends(cast: Cast, fields: seq<Field>, table: seq<Entry>, spot: Spot)
    decreases spot
  {
    spot.pos < |fields| && ItemOffends(cast, fields[spot.pos].shape, Lookup(table, fields[spot.pos].key), spot.fault)
  }

  predicate ItemOffends(cast: Cast, shape: Shape, v: Lua, fault: Fault)
    decreases fault
  {
    match fault
    case Whole => if shape.Single? then cast(shape.cppType, v).None? else !v.Table?
    case WholeRow(r) => shape.Rows? && v.Table? && r < |v.entries| && !v.entries[r].value.Table?
    case InRow(r, spot) =>
      shape.Rows? && v.Table? && r < |v.entries| && v.entries[r].value.Table?
      && Offends(cast, shape.fields, v.entries[r].value.entries, spot)
  }

  /** The order in which values are looked at: last key to first, rows from the first on. */
  predicate Earlier(a: Spot, b: Spot)
    decreases b
  {
    a.pos > b.pos || (a.pos == b.pos && FaultEarlier(a.fault, b.fault))
  }

  predicate FaultEarlier(a: Fault, b: Fault)
    decreases b
  {
    if a.Whole? then !b.Whole?
    else if b.Whole? then false
    else a.row < b.row || (a.row == b.row && b.InRow? && (a.WholeRow? || Earlier(a.spot, b.spot)))
  }

  /** The key path that names a spot; a row that is no table is named by the path of its last key. */
  function SpotPath(fields: seq<Field>, place: Place, spot: Spot): Path
    decreases spot
  {
    if spot.pos >= |fields| then Root("") else
      FaultPath(fields[spot.pos].shape, PathAt(place, fields[spot.pos].key), spot.fault)
  }

  function FaultPath(shape: Shape, path: Path, fault: Fault): Path
    decreases fault
  {
    match fault
    case Whole => path
    case WholeRow(r) => if shape.Rows? && shape.fields != [] then Inner(path, r + 1, shape.fields[|shape.fields| - 1].key) else path
    case InRow(r, spot) => if shape.Rows? then SpotPath(shape.fields, Row(path, r + 1), spot) else path
  }

  /** A row that is no table and the value under the row's last key have the same path. */
  lemma RowSharesPath(fields: seq<Field>, path: Path, r: nat)
    requires fields != []
    ensures FaultPath(Rows(fields), path, WholeRow(r)) == FaultPath(Rows(fields), path, InRow(r, Spot(|fields| - 1, Whole)))
  {
    var last := fields[|fields| - 1];
    assert SpotPath(fields, Row(path, r + 1), Spot(|fields| - 1, Whole)) == FaultPath(last.shape, Inner(path, r + 1, last.key), Whole);
  }

  // ---------- what the path says ----------

  /** The keys of a path, outermost first. */
  function Keys(p: Path): seq<string> {
    if p.Root? then [p.key] else Keys(p.parent) + [p.key]
  }

  /** The row numbers of a path, outermost first. */
  function RowNumbers(p: Path): seq<nat> {
    if p.Root? then [] else RowNumbers(p.parent) + [p.index]
  }

  function PlaceKeys(place: Place): seq<string> {
    if place.Top? then [] else Keys(place.parent)
  }

  function PlaceRows(place: Place): seq<nat> {
    if place.Top? then [] else RowNumbers(place.parent) + [place.index]
  }

  /** The keys of the fields that lead to a spot; of a row that is no table, that of the row's last field. */
  function SpotKeys(fields: seq<Field>, spot: Spot): seq<string>
    requires Located(fields, spot)
    decreases spot
  {
    var field := fields[spot.pos];
    assert FaultLocated(field.shape, spot.fault);
    match spot.fault
    case Whole => [field.key]
    case WholeRow(_) => [field.key, field.shape.fields[|field.shape.fields| - 1].key]
    case InRow(_, inner) => [field.key] + SpotKeys(field.shape.fields, inner)
  }

  /** The rows that lead to a spot, counted from one. */
  function SpotRows(fields: seq<Field>, spot: Spot): seq<nat>
    requires Located(fields, spot)
    decreases spot
  {
    assert FaultLocated(fields[spot.pos].shape, spot.fault);
    match spot.fault
    case Whole => []
    case WholeRow(r) => [r + 1]
    case InRow(r, inner) => [r + 1] + SpotRows(fields[spot.pos].shape.fields, inner)
  }

  /** The reported path consists of exactly those keys and row numbers. */
  lemma {:induction false} PathNamesSpot(fields: seq<Field>, place: Place, spot: Spot)
    requires Located(fields, spot)
    ensures Keys(SpotPath(fields, place, spot)) == PlaceKeys(place) + SpotKeys(fields, spot)
    ensures RowNumbers(SpotPath(fields, place, spot)) == PlaceRows(place) + SpotRows(fields, spot)
    decreases spot
  {
    var field := fields[spot.pos];
    var path := PathAt(place, field.key);
    assert FaultLocated(field.shape, spot.fault);
    assert Keys(path) == PlaceKeys(place) + [field.key] && RowNumbers(path) == PlaceRows(place);
    match spot.fault
    case Whole =>
    case WholeRow(r) =>
    case InRow(r, inner) =>
      PathNamesSpot(field.shape.fields, Row(path, r + 1), inner);
      Associative(PlaceKeys(place), [field.key], SpotKeys(field.shape.fields, inner));
      Associative(PlaceRows(place), [r + 1], SpotRows(field.shape.fields, inner));
  }

  // ---------- what the path tells ----------

  function Depth(p: Path): (d: nat)
    ensures d > 0
  {
    if p.Root? then 1 else 1 + Depth(p.parent)
  }

  /** The beginning of a path, of a given depth. */
  function Ancestor(p: Path, depth: nat): Path {
    if p.Root? || Depth(p) <= depth then p else Ancestor(p.parent, depth)
  }

  /** The shape has such a spot. */
  predicate Located(fields: seq<Field>, spot: Spot)
    decreases spot
  {
    spot.pos < |fields| && FaultLocated(fields[spot.pos].shape, spot.fault)
  }

  predicate FaultLocated(shape: Shape, fault: Fault)
    decreases fault
  {
    match fault
    case Whole => true
    case WholeRow(r) => shape.Rows? && shape.fields != []
    case InRow(r, spot) => shape.Rows? && Located(shape.fields, spot)
  }

  lemma {:induction false} OffendersLocated(cast: Cast, fields: seq<Field>, table: seq<Entry>, spot: Spot)
    requires Nonempty(fields) && Offends(cast, fields, table, spot)
    ensures Located(fields, spot)
    decreases spot
  {
    var shape, v, fault := fields[spot.pos].shape, Lookup(table, fields[spot.pos].key), spot.fault;
    if fault.InRow? {
      OffendersLocated(cast, shape.fields, v.entries[fault.row].value.entries, fault.spot);
    }
  }

  /** The path of a spot begins with the path of the item it is in. */
  lemma {:induction false} PathBegins(fields: seq<Field>, place: Place, spot: Spot, depth: nat)
    requires Located(fields, spot) && depth == Depth(PathAt(place, fields[spot.pos].key))
    ensures Ancestor(SpotPath(fields, place, spot), depth) == PathAt(place, fields[spot.pos].key)
    ensures Depth(SpotPath(fields, place, spot)) >= depth
    decreases spot, 1
  {
    FaultBegins(fields[spot.pos].shape, PathAt(place, fields[spot.pos].key), spot.fault);
  }

  /** And it goes on unless the item as a whole is meant. */
  lemma {:induction false} FaultBegins(shape: Shape, path: Path, fault: Fault)
    requires FaultLocated(shape, fault)
    ensures Ancestor(FaultPath(shape, path, fault), Depth(path)) == path
    ensures Depth(FaultPath(shape, path, fault)) >= Depth(path) + if fault.Whole? then 0 else 1
    decreases fault, 0
  {
    if fault.InRow? {
      var fs, spot, row := shape.fields, fault.spot, Row(path, fault.row + 1);
      var inner := PathAt(row, fs[spot.pos].key);
      PathBegins(fs, row, spot, Depth(inner));
      AncestorOfAncestor(SpotPath(fs, row, spot), Depth(inner), Depth(path));
      assert Ancestor(inner, Depth(path)) == path;
    }
  }

  lemma {:induction false} AncestorOfAncestor(p: Path, d: nat, e: nat)
    requires e <= d
    ensures Ancestor(Ancestor(p, d), e) == Ancestor(p, e)
    decreases p
  {
    if p.Inner? && Depth(p) > d {
      AncestorOfAncestor(p.parent, d, e);
    }
  }

  /** The row that a path goes on with. */
  lemma RowTold(shape: Shape, path: Path, fault: Fault)
    requires FaultLocated(shape, fault) && !fault.Whole?
    ensures var p := Ancestor(FaultPath(shape, path, fault), Depth(path) + 1); p.Inner? && p.index == fault.row + 1
  {
    if fault.InRow? {
      var row := Row(path, fault.row + 1);
      PathBegins(shape.fields, row, fault.spot, Depth(path) + 1);
    }
  }

  /** In one table two values that miss the shape never have the same path, the keys of every level being distinct. */
  lemma {:induction false} PathTellsOffender(cast: Cast, fields: seq<Field>, table: seq<Entry>, place: Place, a: Spot, b: Spot)
    requires Nonempty(fields) && DistinctKeys(fields)
    requires Offends(cast, fields, table, a) && Offends(cast, fields, table, b)
    ensures SpotPath(fields, place, a) == SpotPath(fields, place, b) <==> a == b
    decreases a
  {
    OffendersLocated(cast, fields, table, a);
    OffendersLocated(cast, fields, table, b);
    if SpotPath(fields, place, a) == SpotPath(fields, place, b) {
      SamePosition(fields, place, a, b);
      FaultTold(cast, fields[a.pos].shape, Lookup(table, fields[a.pos].key), PathAt(place, fields[a.pos].key), a.fault, b.fault);
    }
  }

  lemma SamePosition(fields: seq<Field>, place: Place, a: Spot, b: Spot)
    requires DistinctKeys(fields) && Located(fields, a) && Located(fields, b)
    requires SpotPath(fields, place, a) == SpotPath(fields, place, b)
    ensures a.pos == b.pos
  {
    var depth := Depth(PathAt(place, fields[a.pos].key));
    PathBegins(fields, place, a, depth);
    PathBegins(fields, place, b, depth);
  }

  lemma {:induction false} FaultTold(cast: Cast, shape: Shape, v: Lua, path: Path, f: Fault, g: Fault)
    requires shape.Rows? ==> Nonempty(shape.fields) && DistinctKeys(shape.fields)
    requires ItemOffends(cast, shape, v, f) && ItemOffends(cast, shape, v, g)
    requires FaultLocated(shape, f) && FaultLocated(shape, g)
    requires FaultPath(shape, path, f) == FaultPath(shape, path, g)
    ensures f == g
    decreases f
  {
    FaultBegins(shape, path, f);
    FaultBegins(shape, path, g);
    if !f.Whole? && !g.Whole? {
      RowTold(shape, path, f);
      RowTold(shape, path, g);
      if f.InRow? && g.InRow? {
        PathTellsOffender(cast, shape.fields, v.entries[f.row].value.entries, Row(path, f.row + 1), f.spot, g.spot);
      }
    }
  }

  ghost predicate FirstSpot(cast: Cast, fields: seq<Field>, n: nat, table: seq<Entry>, spot: Spot) {
    && spot.pos < n && Offends(cast, fields, table, spot)
    && forall m: Spot :: m.pos < n && Earlier(m, spot) ==> !Offends(cast, fields, table, m)
  }

  ghost predicate FirstFault(cast: Cast, shape: Shape, v: Lua, fault: Fault) {
    && ItemOffends(cast, shape, v, fault)
    && forall g: Fault :: FaultEarlier(g, fault) ==> !ItemOffends(cast, shape, v, g)
  }

  lemma {:induction false} FilledIsClean(cast: Cast, fields: seq<Field>, n: nat, table: seq<Entry>, place: Place, spot: Spot)
    requires n <= |fields| && Nonempty(fields) && Filled(cast, fields, n, table, place).Done? && spot.pos < n
    ensures !Offends(cast, fields, table, spot)
    decreases spot, n
  {
    if spot.pos == n - 1 {
      ItemIsClean(cast, fields[n - 1], table, PathAt(place, fields[n - 1].key), spot.fault);
    } else {
      FilledIsClean(cast, fields, n - 1, table, place, spot);
    }
  }

  lemma {:induction false} ItemIsClean(cast: Cast, field: Field, table: seq<Entry>, path: Path, fault: Fault)
    requires field.shape.Rows? ==> Nonempty(field.shape.fields)
    requires PutItem(cast, field, table, path).Done?
    ensures !ItemOffends(cast, field.shape, Lookup(table, field.key), fault)
    decreases fault
  {
    var v := Lookup(table, field.key);
    if field.shape.Rows? && !fault.Whole? && fault.row < |v.entries| {
      RowsAreClean(cast, field.shape.fields, v.entries, |v.entries|, path, fault);
    }
  }

  /** No fault in a row that was filled. */
  lemma {:induction false} RowsAreClean(cast: Cast, fields: seq<Field>, entries: seq<Entry>, n: nat, path: Path, fault: Fault)
    requires n <= |entries| && Nonempty(fields) && PutRows(cast, fields, entries, n, path).Done?
    requires !fault.Whole? && fault.row < n
    ensures !ItemOffends(cast, Rows(fields), Table(entries), fault)
    decreases fault, 0, n
  {
    if fault.row < n - 1 {
      RowsAreClean(cast, fields, entries, n - 1, path, fault);
    } else if fault.InRow? {
      WhollyClean(cast, fields, entries[n - 1].value.entries, Row(path, n), fault.spot);
    }
  }

  lemma {:induction false} WhollyClean(cast: Cast, fields: seq<Field>, table: seq<Entry>, place: Place, spot: Spot)
    requires Nonempty(fields) && Filled(cast, fields, |fields|, table, place).Done?
    ensures !Offends(cast, fields, table, spot)
    decreases spot, |fields| + 1
  {
    if spot.pos < |fields| {
      FilledIsClean(cast, fields, |fields|, table, place, spot);
    }
  }

  lemma {:induction false} FilledFails(cast: Cast, fields: seq<Field>, n: nat, table: seq<Entry>, place: Place) returns (spot: Spot)
    requires n <= |fields| && Nonempty(fields) && Filled(cast, fields, n, table, place).Failed?
    ensures FirstSpot(cast, fields, n, table, spot)
    ensures Filled(cast, fields, n, table, place).at == Some(SpotPath(fields, place, spot))
    decreases fields, n
  {
    var path := PathAt(place, fields[n - 1].key);
    if PutItem(cast, fields[n - 1], table, path).Failed? {
      var fault := ItemFails(cast, fields[n - 1], table, path);
      spot := Spot(n - 1, fault);
    } else {
      spot := FilledFails(cast, fields, n - 1, table, place);
      forall m: Spot | m.pos < n && Earlier(m, spot) ensures !Offends(cast, fields, table, m) {
        if m.pos == n - 1 { ItemIsClean(cast, fields[n - 1], table, path, m.fault); }
      }
    }
  }

  lemma {:induction false} ItemFails(cast: Cast, field: Field, table: seq<Entry>, path: Path) returns (fault: Fault)
    requires field.shape.Rows? ==> Nonempty(field.shape.fields)
    requires PutItem(cast, field, table, path).Failed?
    ensures FirstFault(cast, field.shape, Lookup(table, field.key), fault)
    ensures PutItem(cast, field, table, path).at == Some(FaultPath(field.shape, path, fault))
    decreases field
  {
    var v := Lookup(table, field.key);
    if field.shape.Rows? && v.Table? {
      fault := RowsFail(cast, field.shape.fields, v.entries, |v.entries|, path);
    } else {
      fault := Whole;
    }
  }

  lemma {:induction false} RowsFail(cast: Cast, fields: seq<Field>, entries: seq<Entry>, n: nat, path: Path) returns (fault: Fault)
    requires n <= |entries| && Nonempty(fields) && PutRows(cast, fields, entries, n, path).Failed?
    ensures FirstFault(cast, Rows(fields), Table(entries), fault)
    ensures PutRows(cast, fields, entries, n, path).at == Some(FaultPath(Rows(fields), path, fault))
    decreases fields, |fields| + 1, n
  {
    if PutRows(cast, fields, entries, n - 1, path).Failed? {
      fault := RowsFail(cast, fields, entries, n - 1, path);
    } else {
      var row := entries[n - 1].value;
      if row.Table? {
        var spot := FilledFails(cast, fields, |fields|, row.entries, Row(path, n));
        fault := InRow(n - 1, spot);
      } else {
        fault := WholeRow(n - 1);
      }
      forall g: Fault | FaultEarlier(g, fault) ensures !ItemOffends(cast, Rows(fields), Table(entries), g) {
        if !g.Whole? && g.row < n - 1 { RowsAreClean(cast, fields, entries, n - 1, path, g); }
      }
    }
  }

  /** A failure names the first value that misses the shape, in the order in which they are looked at. */
  lemma FailureNamesFirstOffender(cast: Cast, fields: seq<Field>, obj: Lua)
    requires Nonempty(fields)
    ensures match Translated(cast, fields, obj)
      case Done(_) => obj.Table? && forall spot: Spot :: !Offends(cast, fields, obj.entries, spot)
      case Failed(None) => !obj.Table?
      case Failed(Some(path)) => obj.Table? && exists spot: Spot :: FirstSpot(cast, fields, |fields|, obj.entries, spot) && path == SpotPath(fields, Top, spot)
  {
    if obj.Table? {
      if Translated(cast, fields, obj).Done? {
        forall spot: Spot ensures !Offends(cast, fields, obj.entries, spot) {
          WhollyClean(cast, fields, obj.entries, Top, spot);
        }
      } else {
        var spot := FilledFails(cast, fields, |fields|, obj.entries, Top);
      }
    }
  }

  /** Two spots are never looked at together, so the first offender is one value. */
  lemma {:induction false} OneIsEarlier(a: Spot, b: Spot)
    requires a != b
    ensures Earlier(a, b) != Earlier(b, a)
    decreases a
  {
    if a.pos == b.pos && a.fault.InRow? && b.fault.InRow? && a.fault.row == b.fault.row {
      OneIsEarlier(a.fault.spot, b.fault.spot);
    }
  }

  // ---------- translate, fill and put ----------

  lemma {:induction false} RowsStayFailed(cast: Cast, fields: seq<Field>, entries: seq<Entry>, k: nat, n: nat, path: Path)
    requires k <= n <= |entries| && Nonempty(fields) && PutRows(cast, fields, entries, k, path).Failed?
    ensures PutRows(cast, fields, entries, n, path) == PutRows(cast, fields, entries, k, path)
    decreases n
  {
    if k < n {
      RowsStayFailed(cast, fields, entries, k, n - 1, path);
    }
  }

  method Translate(cast: Cast, fields: seq<Field>, obj: Lua) returns (o: Outcome<seq<Item>>)
    requires Nonempty(fields)
    ensures o == Translated(cast, fields, obj)
  {
    if !obj.Table? {
      return Failed(None);
    }
    var r := new Item[|fields|];
    var error := Fill(cast, fields, |fields| - 1, obj.entries, Top, r);
    if error.Some? {
      return Failed(error);
    }
    assert r[..] == r[..|fields|];
    return Done(r[..]);
  }

  /** Puts the items at `pos` down to 0; an error is the key path of the exception. */
  method Fill(cast: Cast, fields: seq<Field>, pos: nat, table: seq<Entry>, place: Place, r: array<Item>) returns (error: Option<Path>)
    requires pos < |fields| == r.Length && Nonempty(fields)
    modifies r
    ensures match Filled(cast, fields, pos + 1, table, place)
      case Done(items) => error.None? && r[..pos + 1] == items && r[pos + 1..] == old(r[pos + 1..])
      case Failed(at) => error.Some? && error == at
    decreases fields, pos, 1
  {
    error := Put(cast, fields[pos], table, PathAt(place, fields[pos].key), r, pos);
    if error.Some? {
      return;
    }
    if pos > 0 {
      label Rest:
      error := Fill(cast, fields, pos - 1, table, place, r);
      if error.None? {
        assert r[pos] == old@Rest(r[pos]) by { assert r[pos..][0] == old@Rest(r[pos..])[0]; }
        assert r[pos + 1..] == r[pos..][1..] == old@Rest(r[pos..])[1..] == old@Rest(r[pos + 1..]);
        assert r[..pos + 1] == r[..pos] + [r[pos]];
      }
    }
  }

  method Put(cast: Cast, field: Field, table: seq<Entry>, path: Path, r: array<Item>, pos: nat) returns (error: Option<Path>)
    requires pos < r.Length && (field.shape.Rows? ==> Nonempty(field.shape.fields))
    modifies r
    ensures match PutItem(cast, field, table, path)
      case Done(item) => error.None? && r[pos] == item && forall k :: 0 <= k < r.Length && k != pos ==> r[k] == old(r[k])
      case Failed(at) => error.Some? && error == at
    decreases field
  {
    var inner := Lookup(table, field.key);
    match field.shape
    case Single(t) =>
      var x := cast(t, inner);
      if x.None? {
        return Some(path);
      }
      r[pos] := Value(x.value);
      return None;
    case Rows(fs) =>
      if !inner.Table? {
        return Some(path);
      }
      var v;
      error, v := PutTuples(cast, fs, inner.entries, path);
      if error.None? {
        r[pos] := Vector(v);
      }
  }

  /** One tuple per entry of the inner table, appended in iteration order. */
  method PutTuples(cast: Cast, fields: seq<Field>, entries: seq<Entry>, path: Path) returns (error: Option<Path>, v: seq<seq<Item>>)
    requires Nonempty(fields)
    ensures match PutRows(cast, fields, entries, |entries|, path)
      case Done(rows) => error.None? && v == rows
      case Failed(at) => error.Some? && error == at
    decreases fields, |fields| + 1
  {
    v := [];
    var i := 1;
    while i <= |entries|
      invariant 1 <= i <= |entries| + 1
      invariant PutRows(cast, fields, entries, i - 1, path) == Done(v)
    {
      var row := entries[i - 1].value;
      if !row.Table? {
        RowsStayFailed(cast, fields, entries, i, |entries|, path);
        return Some(PathAt(Row(path, i), fields[|fields| - 1].key)), v;
      }
      var item := new Item[|fields|];
      error := Fill(cast, fields, |fields| - 1, row.entries, Row(path, i), item);
      if error.Some? {
        RowsStayFailed(cast, fields, entries, i, |entries|, path);
        return;
      }
      assert item[..] == item[..|fields|];
      v := v + [item[..]];
      i := i + 1;
    }
    error := None;
  }
}
