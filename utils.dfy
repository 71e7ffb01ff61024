/**
 * The value helpers (utils/index.js, and utils.js, which holds a character
 * for character copy of `convertBigIntValues`): BigInt normalisation of the
 * backend's answers, and the unit `formatFileSize` picks.
 */
module Utils {

  import opened Wrappers
  import opened JsString
  import opened JsValue

  /** `Number.MAX_SAFE_INTEGER` and `Number.MIN_SAFE_INTEGER`: ±(2^53 − 1). */
  const MaxSafeInteger: int := 9007199254740991
  const MinSafeInteger: int := -9007199254740991

  predicate InSafeRange(n: int)
  {
    MinSafeInteger <= n <= MaxSafeInteger
  }

  /** `convertBigIntValues`: a BigInt in the safe range becomes the Number of
      the same value, any other BigInt its decimal text; arrays and objects
      are rebuilt element by element and key by key; everything else is
      returned as it is. */
  function Convert(v: Value): Value
    decreases v
  {
    match v
    case Big(n) => if InSafeRange(n) then Num(n as real) else Str(IntToString(n))
    case Arr(items) => Arr(seq(|items|, i requires 0 <= i < |items| => Convert(items[i])))
    case Obj(fields) => Obj(seq(|fields|, i requires 0 <= i < |fields| => Field(fields[i].key, Convert(fields[i].val))))
    case _ => v
  }

  /** No BigInt occurs anywhere in `v`. */
  ghost predicate NoBigInt(v: Value)
    decreases v
  {
    match v
    case Big(_) => false
    case Arr(items) => forall i :: 0 <= i < |items| ==> NoBigInt(items[i])
    case Obj(fields) => forall i :: 0 <= i < |fields| ==> NoBigInt(fields[i].val)
    case _ => true
  }

  /** `conv` carries the same information as `orig` with every BigInt
      replaced: by the Number of the same value inside the safe range, by a
      text that reads back as the same integer outside it. Arrays keep their
      length and positions, objects their keys in order. */
  ghost predicate Represents(orig: Value, conv: Value)
    decreases orig
  {
    match orig
    case Big(n) =>
      if InSafeRange(n) then conv == Num(n as real)
      else conv.Str? && ParseInt(conv.s) == Some(n)
    case Arr(items) =>
      && conv.Arr? && |conv.items| == |items|
      && forall i :: 0 <= i < |items| ==> Represents(items[i], conv.items[i])
    case Obj(fields) =>
      && conv.Obj? && KeysOf(conv.fields) == KeysOf(fields)
      && forall i :: 0 <= i < |fields| ==> Represents(fields[i].val, conv.fields[i].val)
    case _ => conv == orig
  }

  /** The conversion loses nothing: each BigInt is replaced by an equal Number
      or by its decimal text, and the shape and every other value are kept. */
  lemma {:induction false} ConvertRepresents(v: Value)
    ensures Represents(v, Convert(v))
    decreases v
  {
    match v
    case Big(n) =>
      IntToStringRoundTrip(n);
    case Arr(items) =>
      forall i | 0 <= i < |items| ensures Represents(items[i], Convert(items[i])) {
        ConvertRepresents(items[i]);
      }
    case Obj(fields) =>
      forall i | 0 <= i < |fields| ensures Represents(fields[i].val, Convert(fields[i].val)) {
        ConvertRepresents(fields[i].val);
      }
    case _ =>
  }

  /** The result holds no BigInt. */
  lemma {:induction false} ConvertNoBigInt(v: Value)
    ensures NoBigInt(Convert(v))
    decreases v
  {
    match v
    case Arr(items) =>
      forall i | 0 <= i < |items| ensures NoBigInt(Convert(items[i])) {
        ConvertNoBigInt(items[i]);
      }
    case Obj(fields) =>
      forall i | 0 <= i < |fields| ensures NoBigInt(Convert(fields[i].val)) {
        ConvertNoBigInt(fields[i].val);
      }
    case _ =>
  }

  /** A value without BigInts is rebuilt equal to itself. */
  lemma {:induction false} ConvertKeepsBigIntFree(v: Value)
    requires NoBigInt(v)
    ensures Convert(v) == v
    decreases v
  {
    match v
    case Arr(items) =>
      forall i | 0 <= i < |items| ensures Convert(items[i]) == items[i] {
        ConvertKeepsBigIntFree(items[i]);
      }
      assert Convert(v).items == items;
    case Obj(fields) =>
      forall i | 0 <= i < |fields| ensures Convert(fields[i].val) == fields[i].val {
        ConvertKeepsBigIntFree(fields[i].val);
      }
      assert Convert(v).fields == fields;
    case _ =>
  }

  /** Converting twice is converting once. */
  lemma {:induction false} ConvertIdempotent(v: Value)
    ensures Convert(Convert(v)) == Convert(v)
  {
    ConvertNoBigInt(v);
    ConvertKeepsBigIntFree(Convert(v));
  }

  /** The conversion keeps every object's keys, so distinct keys stay distinct. */
  lemma {:induction false} ConvertWellFormed(v: Value)
    requires WellFormed(v)
    ensures WellFormed(Convert(v))
    decreases v
  {
    match v
    case Arr(items) =>
      forall i | 0 <= i < |items| ensures WellFormed(Convert(items[i])) {
        ConvertWellFormed(items[i]);
      }
    case Obj(fields) =>
      forall i | 0 <= i < |fields| ensures WellFormed(Convert(fields[i].val)) {
        ConvertWellFormed(fields[i].val);
      }
    case _ =>
  }

  /** `result[key] = value` on a plain object: overwrite the key where it is,
      or add it at the end. Adding at the end is how a key that arrives in
      the source object's enumeration order is placed; JavaScript would move
      an array-index key ahead of the others, which this does not model. */
  function Put(fields: seq<Field>, key: string, val: Value): (r: seq<Field>)
    ensures key !in KeysOf(fields) ==> r == fields + [Field(key, val)]
  {
    if fields == [] then [Field(key, val)]
    else if fields[0].key == key then [Field(key, val)] + fields[1..]
    else
      assert KeysOf(fields[1..]) == KeysOf(fields)[1..];
      [fields[0]] + Put(fields[1..], key, val)
  }

  /** `convertBigIntValues(obj)`, with the object branch's `for…in` loop
      filling a fresh `result` object. */
  method ConvertBigIntValues(obj: Value) returns (r: Value)
    requires WellFormed(obj)
    ensures r == Convert(obj)
    decreases obj
  {
    match obj {
      case Null =>
        return obj;
      case Undefined =>
        return obj;
      case Big(n) =>
        if n <= MaxSafeInteger && n >= MinSafeInteger {
          return Num(n as real);
        }
        return Str(IntToString(n));
      case Arr(items) =>
        var mapped: seq<Value> := [];
        for i := 0 to |items|
          invariant |mapped| == i
          invariant forall j :: 0 <= j < i ==> mapped[j] == Convert(items[j])
        {
          var item := ConvertBigIntValues(items[i]);
          mapped := mapped + [item];
        }
        return Arr(mapped);
      case Obj(fields) =>
        var result: seq<Field> := [];
        for i := 0 to |fields|
          invariant |result| == i
          invariant forall j :: 0 <= j < i ==> result[j] == Field(fields[j].key, Convert(fields[j].val))
        {
          var key := fields[i].key;
          var val := ConvertBigIntValues(fields[i].val);
          assert key !in KeysOf(result) by {
            assert forall j :: 0 <= j < i ==> KeysOf(result)[j] == fields[j].key != key;
          }
          result := Put(result, key, val);
        }
        return Obj(result);
      case _ =>
        return obj;
    }
  }

  // ---------------------------------------------------------------------
  // formatFileSize: the unit only; the scaled `toFixed(1)` text is floating
  // point and not part of this model.

  datatype SizeUnit = Bytes | KB | MB | GB

  function Divisor(u: SizeUnit): nat
  {
    match u
    case Bytes => 1
    case KB => 1024
    case MB => 1048576
    case GB => 1073741824
  }

  function Rank(u: SizeUnit): nat
  {
    match u
    case Bytes => 0
    case KB => 1
    case MB => 2
    case GB => 3
  }

  /** What `formatFileSize` prints: the exact count followed by " bytes",
      or the size divided by the unit's divisor, to one decimal, and the unit. */
  datatype SizeLabel = Exact(text: string) | Scaled(unit: SizeUnit)

  /** The unit `formatFileSize` picks for a whole number of bytes: below
      1024 the size itself, otherwise the largest unit (up to GB) whose
      divisor does not exceed it, so the scaled number lies in [1, 1024),
      or is at least 1 for GB. */
  function FormatFileSize(size: int): (l: SizeLabel)
    ensures l.Exact? <==> size < 1024
    ensures l.Exact? ==> l.text == IntToString(size) + " bytes"
    ensures l.Scaled? ==> l.unit != Bytes
    ensures l.Scaled? ==> 1 <= size / Divisor(l.unit)
    ensures l.Scaled? && l.unit != GB ==> size / Divisor(l.unit) < 1024
  {
    if size < 1024 then Exact(IntToString(size) + " bytes")
    else if size < 1048576 then Scaled(KB)
    else if size < 1073741824 then Scaled(MB)
    else Scaled(GB)
  }

  function UnitOf(sl: SizeLabel): SizeUnit
  {
    match sl
    case Exact(_) => Bytes
    case Scaled(u) => u
  }

  /** A larger size never gets a smaller unit. */
  lemma UnitMonotone(a: int, b: int)
    requires a <= b
    ensures Rank(UnitOf(FormatFileSize(a))) <= Rank(UnitOf(FormatFileSize(b)))
  {
  }
}
