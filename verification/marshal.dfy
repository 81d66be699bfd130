/**
 JSON to script values and back, bounded in depth, lossless or refused. Objects and script maps are
 ordered maps, kept here as fields in strictly increasing key order.
 */
module Marshal {
  import opened Wrappers
  import opened MachineInts
  import opened JsonValues
  import opened Orders

  const MAX_DEPTH := 64

  datatype Float = Finite(value: real) | Infinite(negative: bool) | NaN

  datatype Dynamic =
    | Unit
    | DBool(b: bool)
    | DInt(i: i64)
    | DFloat(f: Float)
    | DStr(s: string)
    | DArr(elements: seq<Dynamic>)
    | DMap(entries: seq<DynamicEntry>)
    | DTimestamp(rfc3339: string)
    | DOther(typeName: string)

  datatype DynamicEntry = DynamicEntry(key: string, value: Dynamic)

  datatype MarshalError = TooDeep | IntegerOutOfRange(u: u64) | UnsupportedType(typeName: string) | NonFiniteFloat

  // ----- Ordered maps -----

  ghost predicate SortedFields(fields: seq<JsonField>) {
    forall i, j | 0 <= i < j < |fields| :: Less(fields[i].key, fields[j].key)
  }

  ghost predicate SortedEntries(entries: seq<DynamicEntry>) {
    forall i, j | 0 <= i < j < |entries| :: Less(entries[i].key, entries[j].key)
  }

  function InsertField(fields: seq<JsonField>, key: string, value: Json): seq<JsonField> {
    if fields == [] || Less(fields[|fields| - 1].key, key) then fields + [JsonField(key, value)]
    else if fields[|fields| - 1].key == key then fields[..|fields| - 1] + [JsonField(key, value)]
    else InsertField(fields[..|fields| - 1], key, value) + [fields[|fields| - 1]]
  }

  function InsertEntry(entries: seq<DynamicEntry>, key: string, value: Dynamic): seq<DynamicEntry> {
    if entries == [] || Less(entries[|entries| - 1].key, key) then entries + [DynamicEntry(key, value)]
    else if entries[|entries| - 1].key == key then entries[..|entries| - 1] + [DynamicEntry(key, value)]
    else InsertEntry(entries[..|entries| - 1], key, value) + [entries[|entries| - 1]]
  }

  /** Inserting into an ordered map puts the value under its key, leaves the other keys alone and keeps the order. */
  lemma {:induction false} InsertFieldSets(fields: seq<JsonField>, key: string, value: Json)
    requires SortedFields(fields)
    ensures SortedFields(InsertField(fields, key, value))
    ensures forall f :: f in InsertField(fields, key, value) <==>
      if f.key == key then f.value == value else f in fields
  {
    if fields != [] {
      var init, last := fields[..|fields| - 1], fields[|fields| - 1];
      assert fields == init + [last];
      KeysAreBelow(init, last);
      if Less(last.key, key) {
        forall f | f in fields ensures Less(f.key, key) && f.key != key {
          LessIsStrict(key);
          if f in init {
            LessIsTransitive(f.key, last.key, key);
          }
        }
      } else if last.key == key {
        LessIsStrict(key);
      } else {
        LessIsTotal(last.key, key);
        InsertFieldSets(init, key, value);
        assert forall f | f in InsertField(init, key, value) :: Less(f.key, last.key);
      }
    }
  }

  lemma KeysAreBelow(init: seq<JsonField>, last: JsonField)
    requires SortedFields(init + [last])
    ensures SortedFields(init) && forall f | f in init :: Less(f.key, last.key)
  {
    var fields := init + [last];
    forall f | f in init ensures Less(f.key, last.key) {
      var i :| 0 <= i < |init| && init[i] == f;
      assert Less(fields[i].key, fields[|init|].key);
    }
    forall i, j | 0 <= i < j < |init| ensures Less(init[i].key, init[j].key) {
      assert Less(fields[i].key, fields[j].key);
    }
  }

  lemma {:induction false} InsertEntrySets(entries: seq<DynamicEntry>, key: string, value: Dynamic)
    requires SortedEntries(entries)
    ensures SortedEntries(InsertEntry(entries, key, value))
    ensures forall e :: e in InsertEntry(entries, key, value) <==>
      if e.key == key then e.value == value else e in entries
  {
    if entries != [] {
      var init, last := entries[..|entries| - 1], entries[|entries| - 1];
      assert entries == init + [last];
      EntryKeysAreBelow(init, last);
      if Less(last.key, key) {
        forall e | e in entries ensures Less(e.key, key) && e.key != key {
          LessIsStrict(key);
          if e in init {
            LessIsTransitive(e.key, last.key, key);
          }
        }
      } else if last.key == key {
        LessIsStrict(key);
      } else {
        LessIsTotal(last.key, key);
        InsertEntrySets(init, key, value);
        assert forall e | e in InsertEntry(init, key, value) :: Less(e.key, last.key);
      }
    }
  }

  lemma EntryKeysAreBelow(init: seq<DynamicEntry>, last: DynamicEntry)
    requires SortedEntries(init + [last])
    ensures SortedEntries(init) && forall e | e in init :: Less(e.key, last.key)
  {
    var entries := init + [last];
    forall e | e in init ensures Less(e.key, last.key) {
      var i :| 0 <= i < |init| && init[i] == e;
      assert Less(entries[i].key, entries[|init|].key);
    }
    forall i, j | 0 <= i < j < |init| ensures Less(init[i].key, init[j].key) {
      assert Less(entries[i].key, entries[j].key);
    }
  }

  /** A JSON value as a parser builds it: every object in key order. */
  ghost predicate OrderedJson(v: Json) {
    match v
    case Arr(items) => forall i | 0 <= i < |items| :: OrderedJson(items[i])
    case Obj(fields) => SortedFields(fields) && forall i | 0 <= i < |fields| :: OrderedJson(fields[i].value)
    case _ => true
  }

  ghost predicate OrderedDynamic(d: Dynamic) {
    match d
    case DArr(elements) => forall i | 0 <= i < |elements| :: OrderedDynamic(elements[i])
    case DMap(entries) => SortedEntries(entries) && forall i | 0 <= i < |entries| :: OrderedDynamic(entries[i].value)
    case _ => true
  }

  // ----- JSON to script values -----

  function NumberToDynamic(n: Number): Result<Dynamic, MarshalError> {
    match n
    case PosInt(u) => if u <= I64_MAX then Ok(DInt(u)) else Err(IntegerOutOfRange(u))
    case NegInt(i) => Ok(DInt(i))
    case Double(value) => Ok(DFloat(Finite(value)))
  }

  function ToDynamicAt(v: Json, depth: nat): Result<Dynamic, MarshalError>
    decreases v, 1
  {
    if depth > MAX_DEPTH then Err(TooDeep) else
    match v
    case Null => Ok(Unit)
    case Bool(b) => Ok(DBool(b))
    case Num(n) => NumberToDynamic(n)
    case Str(s) => Ok(DStr(s))
    case Arr(items) =>
      var all := ItemsToDynamic(v, depth, |items|);
      if all.Err? then Err(all.error) else Ok(DArr(all.value))
    case Obj(fields) =>
      var all := FieldsToDynamic(v, depth, |fields|);
      if all.Err? then Err(all.error) else Ok(DMap(all.value))
  }

  /** The first `n` items of an array, or the first error among them. */
  function ItemsToDynamic(v: Json, depth: nat, n: nat): Result<seq<Dynamic>, MarshalError>
    requires v.Arr? && n <= |v.items|
    decreases v, 0, n
  {
    if n == 0 then Ok([]) else
    var before := ItemsToDynamic(v, depth, n - 1);
    if before.Err? then before else
    var item := ToDynamicAt(v.items[n - 1], depth + 1);
    if item.Err? then Err(item.error) else Ok(before.value + [item.value])
  }

  function FieldsToDynamic(v: Json, depth: nat, n: nat): Result<seq<DynamicEntry>, MarshalError>
    requires v.Obj? && n <= |v.fields|
    decreases v, 0, n
  {
    if n == 0 then Ok([]) else
    var before := FieldsToDynamic(v, depth, n - 1);
    if before.Err? then before else
    var value := ToDynamicAt(v.fields[n - 1].value, depth + 1);
    if value.Err? then Err(value.error) else Ok(InsertEntry(before.value, v.fields[n - 1].key, value.value))
  }

  // ----- Script values to JSON -----

  function ToJsonAt(d: Dynamic, depth: nat): Result<Json, MarshalError>
    decreases d, 1
  {
    if depth > MAX_DEPTH then Err(TooDeep) else
    match d
    case Unit => Ok(Null)
    case DBool(b) => Ok(Bool(b))
    case DInt(i) => Ok(Num(IntToNumber(i)))
    case DFloat(f) => if f.Finite? then Ok(Num(Double(f.value))) else Err(NonFiniteFloat)
    case DStr(s) => Ok(Str(s))
    case DArr(elements) =>
      var all := ElementsToJson(d, depth, |elements|);
      if all.Err? then Err(all.error) else Ok(Arr(all.value))
    case DMap(entries) =>
      var all := EntriesToJson(d, depth, |entries|);
      if all.Err? then Err(all.error) else Ok(Obj(all.value))
    case DTimestamp(text) => Ok(Str(text))
    case DOther(name) => Err(UnsupportedType(name))
  }

  function ElementsToJson(d: Dynamic, depth: nat, n: nat): Result<seq<Json>, MarshalError>
    requires d.DArr? && n <= |d.elements|
    decreases d, 0, n
  {
    if n == 0 then Ok([]) else
    var before := ElementsToJson(d, depth, n - 1);
    if before.Err? then before else
    var item := ToJsonAt(d.elements[n - 1], depth + 1);
    if item.Err? then Err(item.error) else Ok(before.value + [item.value])
  }

  function EntriesToJson(d: Dynamic, depth: nat, n: nat): Result<seq<JsonField>, MarshalError>
    requires d.DMap? && n <= |d.entries|
    decreases d, 0, n
  {
    if n == 0 then Ok([]) else
    var before := EntriesToJson(d, depth, n - 1);
    if before.Err? then before else
    var value := ToJsonAt(d.entries[n - 1].value, depth + 1);
    if value.Err? then Err(value.error) else Ok(InsertField(before.value, d.entries[n - 1].key, value.value))
  }

  // ----- The code's loops -----

  lemma {:induction false} ItemErrorsStick(v: Json, depth: nat, m: nat, n: nat)
    requires v.Arr? && m <= n <= |v.items| && ItemsToDynamic(v, depth, m).Err?
    ensures ItemsToDynamic(v, depth, n) == ItemsToDynamic(v, depth, m)
  {
    if m < n {
      ItemErrorsStick(v, depth, m, n - 1);
    }
  }

  lemma {:induction false} FieldErrorsStick(v: Json, depth: nat, m: nat, n: nat)
    requires v.Obj? && m <= n <= |v.fields| && FieldsToDynamic(v, depth, m).Err?
    ensures FieldsToDynamic(v, depth, n) == FieldsToDynamic(v, depth, m)
  {
    if m < n {
      FieldErrorsStick(v, depth, m, n - 1);
    }
  }

  method ArrayItems(v: Json, depth: nat) returns (r: Result<seq<Dynamic>, MarshalError>)
    requires v.Arr?
    ensures r == ItemsToDynamic(v, depth, |v.items|)
    decreases v, 0
  {
    var arr: seq<Dynamic> := [];
    for n := 0 to |v.items|
      invariant ItemsToDynamic(v, depth, n) == Ok(arr)
    {
      var item := ToDynamicDepth(v.items[n], depth + 1);
      if item.Err? {
        ItemErrorsStick(v, depth, n + 1, |v.items|);
        return Err(item.error);
      }
      arr := arr + [item.value];
    }
    r := Ok(arr);
  }

  /** One more field of an object: its value is converted and, unless that fails, entered under its key. */
  lemma OneMoreField(v: Json, depth: nat, n: nat, before: seq<DynamicEntry>, value: Result<Dynamic, MarshalError>)
    requires v.Obj? && n < |v.fields| && FieldsToDynamic(v, depth, n) == Ok(before)
    requires value == ToDynamicAt(v.fields[n].value, depth + 1)
    ensures FieldsToDynamic(v, depth, n + 1) ==
      if value.Err? then Err(value.error) else Ok(InsertEntry(before, v.fields[n].key, value.value))
  {
  }

  method ObjectFields(v: Json, depth: nat) returns (r: Result<seq<DynamicEntry>, MarshalError>)
    requires v.Obj?
    ensures r == FieldsToDynamic(v, depth, |v.fields|)
    decreases v, 0
  {
    var entries: seq<DynamicEntry> := [];
    for n := 0 to |v.fields|
      invariant FieldsToDynamic(v, depth, n) == Ok(entries)
    {
      var value := ToDynamicDepth(v.fields[n].value, depth + 1);
      OneMoreField(v, depth, n, entries, value);
      if value.Err? {
        FieldErrorsStick(v, depth, n + 1, |v.fields|);
        return Err(value.error);
      }
      entries := InsertEntry(entries, v.fields[n].key, value.value);
    }
    r := Ok(entries);
  }

  method ToDynamicDepth(v: Json, depth: nat) returns (r: Result<Dynamic, MarshalError>)
    ensures r == ToDynamicAt(v, depth)
    decreases v, 1
  {
    if depth > MAX_DEPTH {
      return Err(TooDeep);
    }
    match v {
      case Null => r := Ok(Unit);
      case Bool(b) => r := Ok(DBool(b));
      case Num(n) => r := NumberToDynamic(n);
      case Str(s) => r := Ok(DStr(s));
      case Arr(_) =>
        var arr := ArrayItems(v, depth);
        r := if arr.Err? then Err(arr.error) else Ok(DArr(arr.value));
      case Obj(_) =>
        var entries := ObjectFields(v, depth);
        r := if entries.Err? then Err(entries.error) else Ok(DMap(entries.value));
    }
  }

  lemma {:induction false} ElementErrorsStick(d: Dynamic, depth: nat, m: nat, n: nat)
    requires d.DArr? && m <= n <= |d.elements| && ElementsToJson(d, depth, m).Err?
    ensures ElementsToJson(d, depth, n) == ElementsToJson(d, depth, m)
  {
    if m < n {
      ElementErrorsStick(d, depth, m, n - 1);
    }
  }

  lemma {:induction false} EntryErrorsStick(d: Dynamic, depth: nat, m: nat, n: nat)
    requires d.DMap? && m <= n <= |d.entries| && EntriesToJson(d, depth, m).Err?
    ensures EntriesToJson(d, depth, n) == EntriesToJson(d, depth, m)
  {
    if m < n {
      EntryErrorsStick(d, depth, m, n - 1);
    }
  }

  method ArrayElements(d: Dynamic, depth: nat) returns (r: Result<seq<Json>, MarshalError>)
    requires d.DArr?
    ensures r == ElementsToJson(d, depth, |d.elements|)
    decreases d, 0
  {
    var arr: seq<Json> := [];
    for n := 0 to |d.elements|
      invariant ElementsToJson(d, depth, n) == Ok(arr)
    {
      var item := ToJsonDepth(d.elements[n], depth + 1);
      if item.Err? {
        ElementErrorsStick(d, depth, n + 1, |d.elements|);
        return Err(item.error);
      }
      arr := arr + [item.value];
    }
    r := Ok(arr);
  }

  lemma OneMoreEntry(d: Dynamic, depth: nat, n: nat, before: seq<JsonField>, value: Result<Json, MarshalError>)
    requires d.DMap? && n < |d.entries| && EntriesToJson(d, depth, n) == Ok(before)
    requires value == ToJsonAt(d.entries[n].value, depth + 1)
    ensures EntriesToJson(d, depth, n + 1) ==
      if value.Err? then Err(value.error) else Ok(InsertField(before, d.entries[n].key, value.value))
  {
  }

  method MapEntries(d: Dynamic, depth: nat) returns (r: Result<seq<JsonField>, MarshalError>)
    requires d.DMap?
    ensures r == EntriesToJson(d, depth, |d.entries|)
    decreases d, 0
  {
    var fields: seq<JsonField> := [];
    for n := 0 to |d.entries|
      invariant EntriesToJson(d, depth, n) == Ok(fields)
    {
      var value := ToJsonDepth(d.entries[n].value, depth + 1);
      OneMoreEntry(d, depth, n, fields, value);
      if value.Err? {
        EntryErrorsStick(d, depth, n + 1, |d.entries|);
        return Err(value.error);
      }
      fields := InsertField(fields, d.entries[n].key, value.value);
    }
    r := Ok(fields);
  }

  method ToJsonDepth(d: Dynamic, depth: nat) returns (r: Result<Json, MarshalError>)
    ensures r == ToJsonAt(d, depth)
    decreases d, 1
  {
    if depth > MAX_DEPTH {
      return Err(TooDeep);
    }
    match d {
      case Unit => r := Ok(Null);
      case DBool(b) => r := Ok(Bool(b));
      case DInt(i) => r := Ok(Num(IntToNumber(i)));
      case DFloat(f) => r := if f.Finite? then Ok(Num(Double(f.value))) else Err(NonFiniteFloat);
      case DStr(s) => r := Ok(Str(s));
      case DArr(_) =>
        var arr := ArrayElements(d, depth);
        r := if arr.Err? then Err(arr.error) else Ok(Arr(arr.value));
      case DMap(_) =>
        var fields := MapEntries(d, depth);
        r := if fields.Err? then Err(fields.error) else Ok(Obj(fields.value));
      case DTimestamp(text) => r := Ok(Str(text));
      case DOther(name) => r := Err(UnsupportedType(name));
    }
  }

  // ----- What converts -----

  /** Nesting level at most `room`, and no integer above the largest 64-bit signed one. */
  ghost predicate Representable(v: Json, room: int) {
    room >= 0 &&
    match v
    case Num(PosInt(u)) => u <= I64_MAX
    case Arr(items) => forall i | 0 <= i < |items| :: Representable(items[i], room - 1)
    case Obj(fields) => forall i | 0 <= i < |fields| :: Representable(fields[i].value, room - 1)
    case _ => true
  }

  /** Nesting level at most `room`, only finite floats and only types JSON has. */
  ghost predicate Expressible(d: Dynamic, room: int) {
    room >= 0 &&
    match d
    case DFloat(f) => f.Finite?
    case DArr(elements) => forall i | 0 <= i < |elements| :: Expressible(elements[i], room - 1)
    case DMap(entries) => forall i | 0 <= i < |entries| :: Expressible(entries[i].value, room - 1)
    case DOther(_) => false
    case _ => true
  }

  ghost predicate NoTimestamps(d: Dynamic) {
    match d
    case DTimestamp(_) => false
    case DArr(elements) => forall i | 0 <= i < |elements| :: NoTimestamps(elements[i])
    case DMap(entries) => forall i | 0 <= i < |entries| :: NoTimestamps(entries[i].value)
    case _ => true
  }

  /** A JSON value converts exactly when it is at most 64 levels deep and holds no integer above i64::MAX. */
  lemma {:induction false} ConvertsExactlyWhenRepresentable(v: Json, depth: nat)
    ensures ToDynamicAt(v, depth).Ok? <==> Representable(v, 64 - depth)
    decreases v, 1
  {
    if depth <= MAX_DEPTH {
      if v.Arr? {
        ItemsConvert(v, depth, |v.items|);
      } else if v.Obj? {
        FieldsConvert(v, depth, |v.fields|);
      }
    }
  }

  lemma {:induction false} ItemsConvert(v: Json, depth: nat, n: nat)
    requires v.Arr? && n <= |v.items|
    ensures ItemsToDynamic(v, depth, n).Ok? <==>
            forall i | 0 <= i < n :: Representable(v.items[i], MAX_DEPTH - depth - 1)
    decreases v, 0, n
  {
    if n > 0 {
      ItemsConvert(v, depth, n - 1);
      ConvertsExactlyWhenRepresentable(v.items[n - 1], depth + 1);
    }
  }

  lemma OneMoreFieldConverts(v: Json, depth: nat, n: nat, before: bool, last: bool)
    requires v.Obj? && n < |v.fields| && (FieldsToDynamic(v, depth, n).Ok? <==> before)
    requires ToDynamicAt(v.fields[n].value, depth + 1).Ok? <==> last
    ensures FieldsToDynamic(v, depth, n + 1).Ok? <==> before && last
  {
  }

  lemma {:induction false} FieldsConvert(v: Json, depth: nat, n: nat)
    requires v.Obj? && n <= |v.fields|
    ensures FieldsToDynamic(v, depth, n).Ok? <==>
            forall i | 0 <= i < n :: Representable(v.fields[i].value, MAX_DEPTH - depth - 1)
    decreases v, 0, n
  {
    if n > 0 {
      FieldsConvert(v, depth, n - 1);
      ConvertsExactlyWhenRepresentable(v.fields[n - 1].value, depth + 1);
      var room := MAX_DEPTH - depth - 1;
      OneMoreFieldConverts(v, depth, n - 1, forall i | 0 <= i < n - 1 :: Representable(v.fields[i].value, room),
                           Representable(v.fields[n - 1].value, room));
    }
  }

  /** A script value converts exactly when it is at most 64 levels deep with only finite floats and JSON's types. */
  lemma {:induction false} ConvertsExactlyWhenExpressible(d: Dynamic, depth: nat)
    ensures ToJsonAt(d, depth).Ok? <==> Expressible(d, 64 - depth)
    decreases d, 1
  {
    if depth <= MAX_DEPTH {
      if d.DArr? {
        ElementsConvert(d, depth, |d.elements|);
      } else if d.DMap? {
        EntriesConvert(d, depth, |d.entries|);
      }
    }
  }

  lemma {:induction false} ElementsConvert(d: Dynamic, depth: nat, n: nat)
    requires d.DArr? && n <= |d.elements|
    ensures ElementsToJson(d, depth, n).Ok? <==>
            forall i | 0 <= i < n :: Expressible(d.elements[i], MAX_DEPTH - depth - 1)
    decreases d, 0, n
  {
    if n > 0 {
      ElementsConvert(d, depth, n - 1);
      ConvertsExactlyWhenExpressible(d.elements[n - 1], depth + 1);
    }
  }

  lemma OneMoreEntryConverts(d: Dynamic, depth: nat, n: nat, before: bool, last: bool)
    requires d.DMap? && n < |d.entries| && (EntriesToJson(d, depth, n).Ok? <==> before)
    requires ToJsonAt(d.entries[n].value, depth + 1).Ok? <==> last
    ensures EntriesToJson(d, depth, n + 1).Ok? <==> before && last
  {
  }

  lemma {:induction false} EntriesConvert(d: Dynamic, depth: nat, n: nat)
    requires d.DMap? && n <= |d.entries|
    ensures EntriesToJson(d, depth, n).Ok? <==>
            forall i | 0 <= i < n :: Expressible(d.entries[i].value, MAX_DEPTH - depth - 1)
    decreases d, 0, n
  {
    if n > 0 {
      EntriesConvert(d, depth, n - 1);
      ConvertsExactlyWhenExpressible(d.entries[n - 1].value, depth + 1);
      var room := MAX_DEPTH - depth - 1;
      OneMoreEntryConverts(d, depth, n - 1, forall i | 0 <= i < n - 1 :: Expressible(d.entries[i].value, room),
                           Expressible(d.entries[n - 1].value, room));
    }
  }

  // ----- What is reported -----

  /** The first thing, in reading order, that keeps a JSON value from converting. */
  ghost predicate FirstFault(v: Json, room: int, e: MarshalError) {
    if room < 0 then e == TooDeep else
    match v
    case Num(PosInt(u)) => u > 0x7FFF_FFFF_FFFF_FFFF && e == IntegerOutOfRange(u)
    case Arr(items) => exists i :: 0 <= i < |items| && FirstFault(items[i], room - 1, e)
                                   && forall j | 0 <= j < i :: Representable(items[j], room - 1)
    case Obj(fields) => exists i :: 0 <= i < |fields| && FirstFault(fields[i].value, room - 1, e)
                                    && forall j | 0 <= j < i :: Representable(fields[j].value, room - 1)
    case _ => false
  }

  lemma {:induction false} FirstItemFails(v: Json, depth: nat, n: nat) returns (i: nat)
    requires v.Arr? && n <= |v.items| && ItemsToDynamic(v, depth, n).Err?
    ensures i < n && ToDynamicAt(v.items[i], depth + 1) == Err(ItemsToDynamic(v, depth, n).error)
    ensures forall j | 0 <= j < i :: Representable(v.items[j], MAX_DEPTH - depth - 1)
  {
    if ItemsToDynamic(v, depth, n - 1).Err? {
      i := FirstItemFails(v, depth, n - 1);
    } else {
      i := n - 1;
      ItemsConvert(v, depth, n - 1);
    }
  }

  lemma {:induction false} FirstFieldFails(v: Json, depth: nat, n: nat) returns (i: nat)
    requires v.Obj? && n <= |v.fields| && FieldsToDynamic(v, depth, n).Err?
    ensures i < n && ToDynamicAt(v.fields[i].value, depth + 1) == Err(FieldsToDynamic(v, depth, n).error)
    ensures forall j | 0 <= j < i :: Representable(v.fields[j].value, MAX_DEPTH - depth - 1)
  {
    if FieldsToDynamic(v, depth, n - 1).Err? {
      i := FirstFieldFails(v, depth, n - 1);
    } else {
      i := n - 1;
      FieldsConvert(v, depth, n - 1);
    }
  }

  lemma FaultInside(v: Json, i: nat, room: nat, e: MarshalError)
    requires v.Arr? || v.Obj?
    requires v.Arr? ==> i < |v.items| && FirstFault(v.items[i], room - 1, e)
                        && forall j | 0 <= j < i :: Representable(v.items[j], room - 1)
    requires v.Obj? ==> i < |v.fields| && FirstFault(v.fields[i].value, room - 1, e)
                        && forall j | 0 <= j < i :: Representable(v.fields[j].value, room - 1)
    ensures FirstFault(v, room, e)
  {
  }

  /** A JSON value that does not convert is refused for its first fault. */
  lemma {:induction false} RefusedForTheFirstFault(v: Json, depth: nat)
    requires ToDynamicAt(v, depth).Err?
    ensures FirstFault(v, 64 - depth, ToDynamicAt(v, depth).error)
    decreases v
  {
    if depth <= MAX_DEPTH {
      if v.Arr? {
        var i := FirstItemFails(v, depth, |v.items|);
        RefusedForTheFirstFault(v.items[i], depth + 1);
        FaultInside(v, i, MAX_DEPTH - depth, ToDynamicAt(v, depth).error);
      } else if v.Obj? {
        var i := FirstFieldFails(v, depth, |v.fields|);
        RefusedForTheFirstFault(v.fields[i].value, depth + 1);
        FaultInside(v, i, MAX_DEPTH - depth, ToDynamicAt(v, depth).error);
      }
    }
  }

  /** The first thing, in reading order, that keeps a script value from converting. */
  ghost predicate FirstFlaw(d: Dynamic, room: int, e: MarshalError) {
    if room < 0 then e == TooDeep else
    match d
    case DFloat(f) => !f.Finite? && e == NonFiniteFloat
    case DOther(name) => e == UnsupportedType(name)
    case DArr(elements) => exists i :: 0 <= i < |elements| && FirstFlaw(elements[i], room - 1, e)
                                       && forall j | 0 <= j < i :: Expressible(elements[j], room - 1)
    case DMap(entries) => exists i :: 0 <= i < |entries| && FirstFlaw(entries[i].value, room - 1, e)
                                      && forall j | 0 <= j < i :: Expressible(entries[j].value, room - 1)
    case _ => false
  }

  lemma {:induction false} FirstElementFails(d: Dynamic, depth: nat, n: nat) returns (i: nat)
    requires d.DArr? && n <= |d.elements| && ElementsToJson(d, depth, n).Err?
    ensures i < n && ToJsonAt(d.elements[i], depth + 1) == Err(ElementsToJson(d, depth, n).error)
    ensures forall j | 0 <= j < i :: Expressible(d.elements[j], MAX_DEPTH - depth - 1)
  {
    if ElementsToJson(d, depth, n - 1).Err? {
      i := FirstElementFails(d, depth, n - 1);
    } else {
      i := n - 1;
      ElementsConvert(d, depth, n - 1);
    }
  }

  lemma {:induction false} FirstEntryFails(d: Dynamic, depth: nat, n: nat) returns (i: nat)
    requires d.DMap? && n <= |d.entries| && EntriesToJson(d, depth, n).Err?
    ensures i < n && ToJsonAt(d.entries[i].value, depth + 1) == Err(EntriesToJson(d, depth, n).error)
    ensures forall j | 0 <= j < i :: Expressible(d.entries[j].value, MAX_DEPTH - depth - 1)
  {
    if EntriesToJson(d, depth, n - 1).Err? {
      i := FirstEntryFails(d, depth, n - 1);
    } else {
      i := n - 1;
      EntriesConvert(d, depth, n - 1);
    }
  }

  lemma FlawInside(d: Dynamic, i: nat, room: nat, e: MarshalError)
    requires d.DArr? || d.DMap?
    requires d.DArr? ==> i < |d.elements| && FirstFlaw(d.elements[i], room - 1, e)
                         && forall j | 0 <= j < i :: Expressible(d.elements[j], room - 1)
    requires d.DMap? ==> i < |d.entries| && FirstFlaw(d.entries[i].value, room - 1, e)
                         && forall j | 0 <= j < i :: Expressible(d.entries[j].value, room - 1)
    ensures FirstFlaw(d, room, e)
  {
  }

  /** A script value that does not convert is refused for its first flaw. */
  lemma {:induction false} RefusedForTheFirstFlaw(d: Dynamic, depth: nat)
    requires ToJsonAt(d, depth).Err?
    ensures FirstFlaw(d, 64 - depth, ToJsonAt(d, depth).error)
    decreases d
  {
    if depth <= MAX_DEPTH {
      if d.DArr? {
        var i := FirstElementFails(d, depth, |d.elements|);
        RefusedForTheFirstFlaw(d.elements[i], depth + 1);
        FlawInside(d, i, MAX_DEPTH - depth, ToJsonAt(d, depth).error);
      } else if d.DMap? {
        var i := FirstEntryFails(d, depth, |d.entries|);
        RefusedForTheFirstFlaw(d.entries[i].value, depth + 1);
        FlawInside(d, i, MAX_DEPTH - depth, ToJsonAt(d, depth).error);
      }
    }
  }

  // ----- Round trips -----

  lemma {:induction false} FieldsKeepOrder(v: Json, depth: nat, n: nat)
    requires v.Obj? && SortedFields(v.fields) && n <= |v.fields| && FieldsToDynamic(v, depth, n).Ok?
    ensures var entries := FieldsToDynamic(v, depth, n).value;
      |entries| == n && forall i | 0 <= i < n ::
        entries[i].key == v.fields[i].key && ToDynamicAt(v.fields[i].value, depth + 1) == Ok(entries[i].value)
  {
    if n > 0 {
      FieldsKeepOrder(v, depth, n - 1);
      var before := FieldsToDynamic(v, depth, n - 1).value;
      OneMoreField(v, depth, n - 1, before, ToDynamicAt(v.fields[n - 1].value, depth + 1));
      assert before == [] || Less(before[n - 2].key, v.fields[n - 1].key);
    }
  }

  lemma {:induction false} ItemsKeepPlace(v: Json, depth: nat, n: nat)
    requires v.Arr? && n <= |v.items| && ItemsToDynamic(v, depth, n).Ok?
    ensures var elements := ItemsToDynamic(v, depth, n).value;
      |elements| == n && forall i | 0 <= i < n :: ToDynamicAt(v.items[i], depth + 1) == Ok(elements[i])
  {
    if n > 0 {
      ItemsKeepPlace(v, depth, n - 1);
    }
  }

  lemma {:induction false} EntriesKeepOrder(d: Dynamic, depth: nat, n: nat)
    requires d.DMap? && SortedEntries(d.entries) && n <= |d.entries| && EntriesToJson(d, depth, n).Ok?
    ensures var fields := EntriesToJson(d, depth, n).value;
      |fields| == n && forall i | 0 <= i < n ::
        fields[i].key == d.entries[i].key && ToJsonAt(d.entries[i].value, depth + 1) == Ok(fields[i].value)
  {
    if n > 0 {
      EntriesKeepOrder(d, depth, n - 1);
      var before := EntriesToJson(d, depth, n - 1).value;
      OneMoreEntry(d, depth, n - 1, before, ToJsonAt(d.entries[n - 1].value, depth + 1));
      assert before == [] || Less(before[n - 2].key, d.entries[n - 1].key);
    }
  }

  lemma {:induction false} ElementsKeepPlace(d: Dynamic, depth: nat, n: nat)
    requires d.DArr? && n <= |d.elements| && ElementsToJson(d, depth, n).Ok?
    ensures var items := ElementsToJson(d, depth, n).value;
      |items| == n && forall i | 0 <= i < n :: ToJsonAt(d.elements[i], depth + 1) == Ok(items[i])
  {
    if n > 0 {
      ElementsKeepPlace(d, depth, n - 1);
    }
  }

  ghost predicate FieldConverts(f: JsonField, depth: nat, e: DynamicEntry) {
    f.key == e.key && ToDynamicAt(f.value, depth) == Ok(e.value)
  }

  ghost predicate EntryConverts(e: DynamicEntry, depth: nat, f: JsonField) {
    e.key == f.key && ToJsonAt(e.value, depth) == Ok(f.value)
  }

  /** The elements of `d` convert to the first `n` of `items`, one by one. */
  lemma {:induction false} ElementsOf(d: Dynamic, depth: nat, items: seq<Json>, n: nat)
    requires d.DArr? && |d.elements| == |items| && n <= |items|
    requires forall i | 0 <= i < n :: ToJsonAt(d.elements[i], depth + 1) == Ok(items[i])
    ensures ElementsToJson(d, depth, n) == Ok(items[..n])
  {
    if n > 0 {
      ElementsOf(d, depth, items, n - 1);
      assert items[..n] == items[..n - 1] + [items[n - 1]];
    }
  }

  lemma GreatestFieldIsLast(fields: seq<JsonField>, n: nat)
    requires SortedFields(fields) && 0 < n <= |fields|
    ensures InsertField(fields[..n - 1], fields[n - 1].key, fields[n - 1].value) == fields[..n]
  {
    assert fields[..n] == fields[..n - 1] + [JsonField(fields[n - 1].key, fields[n - 1].value)];
  }

  lemma {:induction false} EntriesOf(d: Dynamic, depth: nat, fields: seq<JsonField>, n: nat)
    requires d.DMap? && |d.entries| == |fields| && n <= |fields| && SortedFields(fields)
    requires forall i | 0 <= i < n ::
      EntryConverts(d.entries[i], depth + 1, fields[i])
    ensures EntriesToJson(d, depth, n) == Ok(fields[..n])
  {
    if n > 0 {
      EntriesOf(d, depth, fields, n - 1);
      assert EntryConverts(d.entries[n - 1], depth + 1, fields[n - 1]);
      OneMoreEntry(d, depth, n - 1, fields[..n - 1], Ok(fields[n - 1].value));
      GreatestFieldIsLast(fields, n);
    }
  }

  lemma ArrayToJson(d: Dynamic, depth: nat, items: seq<Json>)
    requires d.DArr? && depth <= MAX_DEPTH && |d.elements| == |items|
    requires forall i | 0 <= i < |items| :: ToJsonAt(d.elements[i], depth + 1) == Ok(items[i])
    ensures ToJsonAt(d, depth) == Ok(Arr(items))
  {
    ElementsOf(d, depth, items, |items|);
    assert items[..|items|] == items;
  }

  lemma MapToJson(d: Dynamic, depth: nat, fields: seq<JsonField>)
    requires d.DMap? && depth <= MAX_DEPTH && |d.entries| == |fields| && SortedFields(fields)
    requires forall i | 0 <= i < |fields| ::
      EntryConverts(d.entries[i], depth + 1, fields[i])
    ensures ToJsonAt(d, depth) == Ok(Obj(fields))
  {
    EntriesOf(d, depth, fields, |fields|);
    assert fields[..|fields|] == fields;
  }

  /** Whatever JSON converts at all comes back exactly. */
  lemma {:induction false} JsonSurvives(v: Json, depth: nat)
    requires OrderedJson(v) && ToDynamicAt(v, depth).Ok?
    ensures ToJsonAt(ToDynamicAt(v, depth).value, depth) == Ok(v)
    decreases v
  {
    var d := ToDynamicAt(v, depth).value;
    if v.Arr? {
      ItemsKeepPlace(v, depth, |v.items|);
      forall i | 0 <= i < |v.items| ensures ToJsonAt(d.elements[i], depth + 1) == Ok(v.items[i]) {
        JsonSurvives(v.items[i], depth + 1);
      }
      ArrayToJson(d, depth, v.items);
    } else if v.Obj? {
      FieldsKeepOrder(v, depth, |v.fields|);
      forall i | 0 <= i < |v.fields| ensures EntryConverts(d.entries[i], depth + 1, v.fields[i]) {
        JsonSurvives(v.fields[i].value, depth + 1);
      }
      MapToJson(d, depth, v.fields);
    }
  }

  lemma {:induction false} ItemsOf(v: Json, depth: nat, elements: seq<Dynamic>, n: nat)
    requires v.Arr? && |v.items| == |elements| && n <= |elements|
    requires forall i | 0 <= i < n :: ToDynamicAt(v.items[i], depth + 1) == Ok(elements[i])
    ensures ItemsToDynamic(v, depth, n) == Ok(elements[..n])
  {
    if n > 0 {
      ItemsOf(v, depth, elements, n - 1);
      assert elements[..n] == elements[..n - 1] + [elements[n - 1]];
    }
  }

  lemma GreatestEntryIsLast(entries: seq<DynamicEntry>, n: nat)
    requires SortedEntries(entries) && 0 < n <= |entries|
    ensures InsertEntry(entries[..n - 1], entries[n - 1].key, entries[n - 1].value) == entries[..n]
  {
    assert entries[..n] == entries[..n - 1] + [DynamicEntry(entries[n - 1].key, entries[n - 1].value)];
  }

  lemma {:induction false} FieldsOf(v: Json, depth: nat, entries: seq<DynamicEntry>, n: nat)
    requires v.Obj? && |v.fields| == |entries| && n <= |entries| && SortedEntries(entries)
    requires forall i | 0 <= i < n ::
      FieldConverts(v.fields[i], depth + 1, entries[i])
    ensures FieldsToDynamic(v, depth, n) == Ok(entries[..n])
  {
    if n > 0 {
      FieldsOf(v, depth, entries, n - 1);
      assert FieldConverts(v.fields[n - 1], depth + 1, entries[n - 1]);
      OneMoreField(v, depth, n - 1, entries[..n - 1], Ok(entries[n - 1].value));
      GreatestEntryIsLast(entries, n);
    }
  }

  lemma ArrayToDynamic(v: Json, depth: nat, elements: seq<Dynamic>)
    requires v.Arr? && depth <= MAX_DEPTH && |v.items| == |elements|
    requires forall i | 0 <= i < |elements| :: ToDynamicAt(v.items[i], depth + 1) == Ok(elements[i])
    ensures ToDynamicAt(v, depth) == Ok(DArr(elements))
  {
    ItemsOf(v, depth, elements, |elements|);
    assert elements[..|elements|] == elements;
  }

  lemma ObjectToDynamic(v: Json, depth: nat, entries: seq<DynamicEntry>)
    requires v.Obj? && depth <= MAX_DEPTH && |v.fields| == |entries| && SortedEntries(entries)
    requires forall i | 0 <= i < |entries| ::
      FieldConverts(v.fields[i], depth + 1, entries[i])
    ensures ToDynamicAt(v, depth) == Ok(DMap(entries))
  {
    FieldsOf(v, depth, entries, |entries|);
    assert entries[..|entries|] == entries;
  }

  /** A script value that converts and holds no timestamp comes back exactly. */
  lemma {:induction false} DynamicSurvives(d: Dynamic, depth: nat)
    requires OrderedDynamic(d) && ToJsonAt(d, depth).Ok? && NoTimestamps(d)
    ensures ToDynamicAt(ToJsonAt(d, depth).value, depth) == Ok(d)
    decreases d
  {
    var v := ToJsonAt(d, depth).value;
    if d.DArr? {
      ElementsKeepPlace(d, depth, |d.elements|);
      forall i | 0 <= i < |d.elements| ensures ToDynamicAt(v.items[i], depth + 1) == Ok(d.elements[i]) {
        DynamicSurvives(d.elements[i], depth + 1);
      }
      ArrayToDynamic(v, depth, d.elements);
    } else if d.DMap? {
      EntriesKeepOrder(d, depth, |d.entries|);
      forall i | 0 <= i < |d.entries| ensures FieldConverts(v.fields[i], depth + 1, d.entries[i]) {
        DynamicSurvives(d.entries[i].value, depth + 1);
      }
      ObjectToDynamic(v, depth, d.entries);
    }
  }

  /** The same value with every timestamp as the string that RFC 3339 writes for it. */
  ghost function Texted(d: Dynamic): Dynamic {
    match d
    case DTimestamp(text) => DStr(text)
    case DArr(elements) => DArr(seq(|elements|, i requires 0 <= i < |elements| => Texted(elements[i])))
    case DMap(entries) =>
      DMap(seq(|entries|, i requires 0 <= i < |entries| => DynamicEntry(entries[i].key, Texted(entries[i].value))))
    case _ => d
  }

  lemma {:induction false} TextedConverts(d: Dynamic, depth: nat)
    ensures ToJsonAt(Texted(d), depth) == ToJsonAt(d, depth)
    decreases d, 1
  {
    if d.DArr? {
      ElementsTexted(d, depth, |d.elements|);
    } else if d.DMap? {
      EntriesTexted(d, depth, |d.entries|);
    }
  }

  lemma {:induction false} ElementsTexted(d: Dynamic, depth: nat, n: nat)
    requires d.DArr? && n <= |d.elements|
    ensures ElementsToJson(Texted(d), depth, n) == ElementsToJson(d, depth, n)
    decreases d, 0, n
  {
    if n > 0 {
      ElementsTexted(d, depth, n - 1);
      TextedConverts(d.elements[n - 1], depth + 1);
    }
  }

  lemma {:induction false} EntriesTexted(d: Dynamic, depth: nat, n: nat)
    requires d.DMap? && n <= |d.entries|
    ensures EntriesToJson(Texted(d), depth, n) == EntriesToJson(d, depth, n)
    decreases d, 0, n
  {
    if n > 0 {
      EntriesTexted(d, depth, n - 1);
      TextedConverts(d.entries[n - 1].value, depth + 1);
      assert Texted(d).entries[n - 1] == DynamicEntry(d.entries[n - 1].key, Texted(d.entries[n - 1].value));
    }
  }

  lemma {:induction false} TextedHasNoTimestamps(d: Dynamic)
    ensures NoTimestamps(Texted(d)) && (OrderedDynamic(d) ==> OrderedDynamic(Texted(d)))
    ensures Texted(d) == d <==> NoTimestamps(d)
    decreases d
  {
    if d.DArr? {
      forall i | 0 <= i < |d.elements|
        ensures NoTimestamps(Texted(d.elements[i])) &&
                (OrderedDynamic(d.elements[i]) ==> OrderedDynamic(Texted(d.elements[i])))
        ensures Texted(d.elements[i]) == d.elements[i] <==> NoTimestamps(d.elements[i])
      {
        TextedHasNoTimestamps(d.elements[i]);
      }
      if Texted(d) == d {
        assert forall i | 0 <= i < |d.elements| :: Texted(d).elements[i] == Texted(d.elements[i]);
      }
    } else if d.DMap? {
      forall i | 0 <= i < |d.entries|
        ensures NoTimestamps(Texted(d.entries[i].value))
        ensures OrderedDynamic(d.entries[i].value) ==> OrderedDynamic(Texted(d.entries[i].value))
        ensures Texted(d.entries[i].value) == d.entries[i].value <==> NoTimestamps(d.entries[i].value)
      {
        TextedHasNoTimestamps(d.entries[i].value);
      }
      if Texted(d) == d {
        assert forall i | 0 <= i < |d.entries| :: Texted(d).entries[i].value == Texted(d.entries[i].value);
      }
    }
  }

  /** What comes back of a script value that converts: the value itself, with timestamps as their text. */
  lemma TimestampsComeBackAsText(d: Dynamic)
    requires OrderedDynamic(d) && ToJsonAt(d, 0).Ok?
    ensures ToDynamicAt(ToJsonAt(d, 0).value, 0) == Ok(Texted(d))
  {
    TextedConverts(d, 0);
    TextedHasNoTimestamps(d);
    DynamicSurvives(Texted(d), 0);
  }

  /** The reverse round trip holds exactly for values without timestamps: those come back as strings. */
  lemma DynamicSurvivesIffNoTimestamps(d: Dynamic)
    requires OrderedDynamic(d) && ToJsonAt(d, 0).Ok?
    ensures ToDynamicAt(ToJsonAt(d, 0).value, 0) == Ok(d) <==> NoTimestamps(d)
  {
    TimestampsComeBackAsText(d);
    TextedHasNoTimestamps(d);
  }
}
