/**
 The storage codec that carries big integers through JSON (service/src/storage/json.ts),
 as functions on value trees: Encode is the replacer, Decode the reviver.
 */
module StorageJson {
  import opened Prelude

  /** A value of the program. The text of a number is opaque; an object is a map from names to values. */
  datatype Value =
    | Null
    | Boolean(flag: bool)
    | Number(token: nat)
    | Text(text: string)
    | BigInteger(number: int)
    | List(items: seq<Value>)
    | Object(fields: map<string, Value>)

  const BIGINT_TAG: string := "__uvp_storage_bigint__"

  // ----- printing and parsing integers -----

  function Digit(d: nat): char
    requires d < 10
  {
    '0' + d as char
  }

  function PrintNat(n: nat): (s: string)
    ensures |s| > 0
  {
    if n < 10 then [Digit(n)] else PrintNat(n / 10) + [Digit(n % 10)]
  }

  function PrintInt(n: int): string
  {
    if n < 0 then "-" + PrintNat(-n) else PrintNat(n)
  }

  function DigitValue(c: char, radix: nat): Option<nat>
  {
    var v :=
      if '0' <= c <= '9' then c as int - '0' as int
      else if 'a' <= c <= 'z' then c as int - 'a' as int + 10
      else if 'A' <= c <= 'Z' then c as int - 'A' as int + 10
      else radix;
    if v < radix then Some(v) else None
  }

  /** The value of a non-empty run of digits. */
  function ParseDigits(s: string, radix: nat): Option<nat>
  {
    if |s| == 0 then None
    else
      var last := DigitValue(s[|s| - 1], radix);
      if last.None? then None
      else if |s| == 1 then last
      else
        var front := ParseDigits(s[..|s| - 1], radix);
        if front.None? then None else Some(front.value * radix + last.value)
  }

  predicate IsSpace(c: char) { c == ' ' || c == '\t' || c == '\n' || c == '\r' }

  function TrimLeft(s: string): string
  {
    if |s| > 0 && IsSpace(s[0]) then TrimLeft(s[1..]) else s
  }

  function TrimRight(s: string): string
  {
    if |s| > 0 && IsSpace(s[|s| - 1]) then TrimRight(s[..|s| - 1]) else s
  }

  /** The radix that the prefix 0x, 0o or 0b announces. */
  function PrefixRadix(s: string): Option<nat>
  {
    if |s| < 2 || s[0] != '0' then None
    else if s[1] == 'x' || s[1] == 'X' then Some(16)
    else if s[1] == 'o' || s[1] == 'O' then Some(8)
    else if s[1] == 'b' || s[1] == 'B' then Some(2)
    else None
  }

  /** The integer constructor applied to a string: nothing but space is zero. */
  function ParseInt(s: string): Option<int>
  {
    var t := TrimRight(TrimLeft(s));
    if |t| == 0 then Some(0)
    else if PrefixRadix(t).Some? then ParseDigits(t[2..], PrefixRadix(t).value)
    else if t[0] == '-' then
      var digits := ParseDigits(t[1..], 10);
      if digits.None? then None
      else
        var magnitude: int := digits.value;
        Some(-magnitude)
    else if t[0] == '+' then ParseDigits(t[1..], 10)
    else ParseDigits(t, 10)
  }

  lemma {:induction false} PrintedNatParses(n: nat)
    ensures ParseDigits(PrintNat(n), 10) == Some(n)
    ensures forall i :: 0 <= i < |PrintNat(n)| ==> '0' <= PrintNat(n)[i] <= '9'
    ensures n > 0 ==> PrintNat(n)[0] != '0'
  {
    if n >= 10 {
      PrintedNatParses(n / 10);
      var front, last := PrintNat(n / 10), Digit(n % 10);
      assert (front + [last])[..|front|] == front;
    }
  }

  /** Every integer survives printing and parsing. */
  lemma PrintedIntParses(n: int)
    ensures ParseInt(PrintInt(n)) == Some(n)
  {
    var digits := PrintNat(if n < 0 then -n else n);
    PrintedNatParses(if n < 0 then -n else n);
    var s := PrintInt(n);
    assert !IsSpace(digits[0]) && !IsSpace(digits[|digits| - 1]);
    assert s[|s| - 1] == digits[|digits| - 1];
    assert TrimLeft(s) == s && TrimRight(s) == s;
    if n < 0 { assert s[1..] == digits; }
  }

  // ----- the codec -----

  function Encode(v: Value): Value
  {
    match v
    case BigInteger(n) => Object(map[BIGINT_TAG := Text(PrintInt(n))])
    case List(items) => List(seq(|items|, i requires 0 <= i < |items| => Encode(items[i])))
    case Object(fields) => Object(map k | k in fields :: Encode(fields[k]))
    case _ => v
  }

  predicate IsBigIntRecord(v: Value)
  {
    v.Object? && BIGINT_TAG in v.fields && v.fields[BIGINT_TAG].Text?
  }

  /** The reviver on a value whose children have been revived; None is the exception a non-integer text throws. */
  function Revive(v: Value): Option<Value>
  {
    if !IsBigIntRecord(v) then Some(v)
    else
      var parsed := ParseInt(v.fields[BIGINT_TAG].text);
      if parsed.Some? then Some(BigInteger(parsed.value)) else None
  }

  /** Children first, then the value itself. */
  function Decode(v: Value): Option<Value>
  {
    match v
    case List(items) =>
      if exists i :: 0 <= i < |items| && Decode(items[i]).None? then None
      else Some(List(seq(|items|, i requires 0 <= i < |items| => Decode(items[i]).value)))
    case Object(fields) =>
      if exists k :: k in fields && Decode(fields[k]).None? then None
      else Revive(Object(map k | k in fields :: Decode(fields[k]).value))
    case _ => Some(v)
  }

  // ----- the round trip -----

  /** No object of the tree maps the reserved name to a string. */
  ghost predicate Unreserved(v: Value)
  {
    match v
    case List(items) => forall i :: 0 <= i < |items| ==> Unreserved(items[i])
    case Object(fields) => !IsBigIntRecord(v) && forall k :: k in fields ==> Unreserved(fields[k])
    case _ => true
  }

  lemma DecodedInteger(n: int)
    ensures Decode(Encode(BigInteger(n))) == Some(BigInteger(n))
  {
    var o := Encode(BigInteger(n));
    var revived := map k | k in o.fields :: Decode(o.fields[k]).value;
    assert revived == o.fields;
    PrintedIntParses(n);
  }

  lemma {:induction false} RoundTrip(v: Value)
    requires Unreserved(v)
    ensures Decode(Encode(v)) == Some(v)
  {
    match v
    case BigInteger(n) => DecodedInteger(n);
    case List(items) =>
      forall i | 0 <= i < |items| ensures Decode(Encode(items[i])) == Some(items[i]) { RoundTrip(items[i]); }
      var e := Encode(v).items;
      assert seq(|e|, i requires 0 <= i < |e| => Decode(e[i]).value) == items;
    case Object(fields) =>
      forall k | k in fields ensures Decode(Encode(fields[k])) == Some(fields[k]) { RoundTrip(fields[k]); }
      ObjectRoundTrip(fields);
    case _ =>
  }

  lemma ObjectRoundTrip(fields: map<string, Value>)
    requires !IsBigIntRecord(Object(fields))
    requires forall k :: k in fields ==> Decode(Encode(fields[k])) == Some(fields[k])
    ensures Decode(Encode(Object(fields))) == Some(Object(fields))
  {
    var e := Encode(Object(fields)).fields;
    assert forall k :: k in e ==> e[k] == Encode(fields[k]);
    assert forall k :: k in e ==> Decode(e[k]) == Some(fields[k]);
    var revived := map k | k in e :: Decode(e[k]).value;
    assert revived == fields;
    assert Decode(Object(e)) == Revive(Object(revived));
  }

  lemma DecodedItem(items: seq<Value>, i: nat)
    requires i < |items|
    ensures var d := Decode(List(items));
      d.Some? ==> d.value.List? && |d.value.items| == |items| && Decode(items[i]) == Some(d.value.items[i])
  {
  }

  /** A tree outside the domain never comes back as it was. */
  lemma {:induction false} ReservedDoesNotReturn(v: Value)
    requires !Unreserved(v)
    ensures Decode(Encode(v)) != Some(v)
  {
    match v
    case List(items) =>
      var i :| 0 <= i < |items| && !Unreserved(items[i]);
      ReservedDoesNotReturn(items[i]);
      assert Encode(v).items[i] == Encode(items[i]);
      DecodedItem(Encode(v).items, i);
    case Object(fields) =>
      var e := Encode(v).fields;
      if IsBigIntRecord(v) {
        assert e[BIGINT_TAG] == Encode(fields[BIGINT_TAG]) == fields[BIGINT_TAG];
        if forall k :: k in e ==> Decode(e[k]).Some? {
          var revived := map k | k in e :: Decode(e[k]).value;
          assert revived[BIGINT_TAG] == fields[BIGINT_TAG];
          assert Revive(Object(revived)) != Some(v);
        }
      } else {
        var k :| k in fields && !Unreserved(fields[k]);
        ReservedDoesNotReturn(fields[k]);
        assert e[k] == Encode(fields[k]);
      }
    case _ =>
  }

  /** The exact domain of the codec: a tree comes back unchanged if and only if it does not use the reserved name for a string. */
  lemma RoundTripExactly(v: Value)
    ensures Decode(Encode(v)) == Some(v) <==> Unreserved(v)
  {
    if Unreserved(v) { RoundTrip(v); } else { ReservedDoesNotReturn(v); }
  }

  /** On that domain no two values are stored alike. */
  lemma EncodeIsInjective(u: Value, v: Value)
    requires Unreserved(u) && Unreserved(v) && Encode(u) == Encode(v)
    ensures u == v
  {
    RoundTrip(u);
    RoundTrip(v);
  }

  /** Outside it they may be: a reserved object with a decimal text is stored like the integer it spells. */
  lemma {:induction false} ReservedCollides(n: int)
    ensures var o := Object(map[BIGINT_TAG := Text(PrintInt(n))]);
      !Unreserved(o) && Encode(o) == Encode(BigInteger(n)) && o != BigInteger(n)
  {
    var o := Object(map[BIGINT_TAG := Text(PrintInt(n))]);
    assert Encode(o).fields == o.fields;
  }

  /** What is stored contains no big integer, so that plain JSON can carry it. */
  ghost predicate PlainJson(v: Value)
  {
    match v
    case BigInteger(_) => false
    case List(items) => forall i :: 0 <= i < |items| ==> PlainJson(items[i])
    case Object(fields) => forall k :: k in fields ==> PlainJson(fields[k])
    case _ => true
  }

  lemma {:induction false} EncodedIsPlain(v: Value)
    ensures PlainJson(Encode(v))
  {
    match v
    case List(items) => forall i | 0 <= i < |items| ensures PlainJson(Encode(items[i])) { EncodedIsPlain(items[i]); }
    case Object(fields) => forall k | k in fields ensures PlainJson(Encode(fields[k])) { EncodedIsPlain(fields[k]); }
    case _ =>
  }
}
