/** Strict UTF-8: the decoder against the encoding of section 3 and the grammar of section 4
    of RFC 3629. */
module Utf8 {
  import opened Bytecode

  type Byte = U8

  datatype Error =
    | OutOfRange | Truncated(length: nat) | InvalidContinuation | Overlong | Surrogate | InvalidScalar
    | InvalidLeadingByte

  datatype Result<+T> = Ok(value: T) | Err(error: Error)

  // ---- Section 3: scalar values and their encoding ----------------------------------------------

  predicate IsScalar(cp: nat) { cp < 0xD800 || 0xE000 <= cp <= 0x10FFFF }

  function Encode(cp: nat): (s: seq<Byte>)
    requires IsScalar(cp)
  {
    if cp < 0x80 then [cp]
    else if cp < 0x800 then [0xC0 + cp / 0x40, 0x80 + cp % 0x40]
    else if cp < 0x1_0000 then [0xE0 + cp / 0x1000, 0x80 + cp / 0x40 % 0x40, 0x80 + cp % 0x40]
    else [0xF0 + cp / 0x4_0000, 0x80 + cp / 0x1000 % 0x40, 0x80 + cp / 0x40 % 0x40, 0x80 + cp % 0x40]
  }

  predicate AllScalar(cps: seq<nat>) { forall k :: 0 <= k < |cps| ==> IsScalar(cps[k]) }

  function EncodeAll(cps: seq<nat>): seq<Byte>
    requires AllScalar(cps)
  {
    if cps == [] then [] else Encode(cps[0]) + EncodeAll(cps[1..])
  }

  // ---- Section 4: the grammar -------------------------------------------------------------------

  predicate IsTail(b: Byte) { 0x80 <= b <= 0xBF }

  predicate IsChar(s: seq<Byte>) {
    match |s|
    case 1 => s[0] <= 0x7F
    case 2 => 0xC2 <= s[0] <= 0xDF && IsTail(s[1])
    case 3 =>
      || (s[0] == 0xE0 && 0xA0 <= s[1] <= 0xBF && IsTail(s[2]))
      || (0xE1 <= s[0] <= 0xEC && IsTail(s[1]) && IsTail(s[2]))
      || (s[0] == 0xED && 0x80 <= s[1] <= 0x9F && IsTail(s[2]))
      || (0xEE <= s[0] <= 0xEF && IsTail(s[1]) && IsTail(s[2]))
    case 4 =>
      || (s[0] == 0xF0 && 0x90 <= s[1] <= 0xBF && IsTail(s[2]) && IsTail(s[3]))
      || (0xF1 <= s[0] <= 0xF3 && IsTail(s[1]) && IsTail(s[2]) && IsTail(s[3]))
      || (s[0] == 0xF4 && 0x80 <= s[1] <= 0x8F && IsTail(s[2]) && IsTail(s[3]))
    case _ => false
  }

  ghost predicate WellFormed(s: seq<Byte>) {
    s == [] || exists n :: 1 <= n <= |s| && IsChar(s[..n]) && WellFormed(s[n..])
  }

  // ---- One character ---------------------------------------------------------------------------------

  datatype Decoded = Decoded(cp: nat, length: nat)

  // Six payload bits behind those already read.
  function Shifted(high: int, tail: int): int { high * 0x40 + (tail - 0x80) }

  // DecodeOne at the start of `s`; masks are written as ranges and shifts as products.
  function First(s: seq<Byte>): Result<Decoded>
    requires s != []
  {
    var b0 := s[0];
    if b0 <= 0x7F then Ok(Decoded(b0, 1))
    else if b0 < 0xC0 || 0xF8 <= b0 then Err(InvalidLeadingByte)
    else if b0 < 0xE0 then Two(s)
    else if b0 < 0xF0 then Three(s)
    else Four(s)
  }

  function Two(s: seq<Byte>): Result<Decoded>
    requires s != [] && 0xC0 <= s[0] < 0xE0
  {
    if |s| < 2 then Err(Truncated(2))
    else if !IsTail(s[1]) then Err(InvalidContinuation)
    else
      var cp := Shifted(s[0] - 0xC0, s[1]);
      if cp < 0x80 then Err(Overlong) else Ok(Decoded(cp, 2))
  }

  function Three(s: seq<Byte>): Result<Decoded>
    requires s != [] && 0xE0 <= s[0] < 0xF0
  {
    if |s| < 3 then Err(Truncated(3))
    else if !IsTail(s[1]) || !IsTail(s[2]) then Err(InvalidContinuation)
    else
      var cp := Shifted(Shifted(s[0] - 0xE0, s[1]), s[2]);
      if cp < 0x800 then Err(Overlong)
      else if 0xD800 <= cp <= 0xDFFF then Err(Surrogate)
      else Ok(Decoded(cp, 3))
  }

  function Four(s: seq<Byte>): Result<Decoded>
    requires s != [] && 0xF0 <= s[0] < 0xF8
  {
    if |s| < 4 then Err(Truncated(4))
    else if !IsTail(s[1]) || !IsTail(s[2]) || !IsTail(s[3]) then Err(InvalidContinuation)
    else
      var cp := Shifted(Shifted(Shifted(s[0] - 0xF0, s[1]), s[2]), s[3]);
      if cp < 0x1_0000 || cp > 0x10_FFFF then Err(InvalidScalar) else Ok(Decoded(cp, 4))
  }

  lemma ShiftedIs(high: int, tail: Byte)
    ensures Shifted(high, tail) == high * 0x40 + (tail as int - 0x80)
  {
  }

  // Reading back what was shifted in.
  lemma Unshifted(high: nat, tail: Byte)
    requires IsTail(tail)
    ensures Shifted(high, tail) / 0x40 == high && Shifted(high, tail) % 0x40 == tail - 0x80
  {
  }

  lemma Slow(cp: nat)
    ensures cp / 0x1000 == cp / 0x40 / 0x40 && cp / 0x4_0000 == cp / 0x40 / 0x40 / 0x40
  {
  }

  // What is decoded is a scalar value, and its encoding is what was read.
  lemma FirstEncoded(s: seq<Byte>)
    requires s != [] && First(s).Ok?
    ensures var d := First(s).value;
            && 1 <= d.length <= |s| && IsScalar(d.cp) && Encode(d.cp) == s[..d.length] && IsChar(s[..d.length])
  {
    if s[0] > 0x7F {
      Slow(First(s).value.cp);
      if s[0] < 0xE0 { TwoEncoded(s); } else if s[0] < 0xF0 { ThreeEncoded(s); } else { FourEncoded(s); }
    }
  }

  lemma TwoEncoded(s: seq<Byte>)
    requires s != [] && 0xC0 <= s[0] < 0xE0 && Two(s).Ok?
    ensures var d := Two(s).value; IsScalar(d.cp) && Encode(d.cp) == s[..2] && IsChar(s[..2])
  {
    Unshifted(s[0] - 0xC0, s[1]);
  }

  lemma ThreeEncoded(s: seq<Byte>)
    requires s != [] && 0xE0 <= s[0] < 0xF0 && Three(s).Ok?
    ensures var d := Three(s).value; IsScalar(d.cp) && Encode(d.cp) == s[..3] && IsChar(s[..3])
  {
    hide Shifted;
    var high := Shifted(s[0] - 0xE0, s[1]);
    ShiftedIs(s[0] - 0xE0, s[1]);
    ShiftedIs(high, s[2]);
    Unshifted(s[0] - 0xE0, s[1]);
    Unshifted(high, s[2]);
    Slow(Shifted(high, s[2]));
  }

  lemma FourEncoded(s: seq<Byte>)
    requires s != [] && 0xF0 <= s[0] < 0xF8 && Four(s).Ok?
    ensures var d := Four(s).value; IsScalar(d.cp) && Encode(d.cp) == s[..4] && IsChar(s[..4])
  {
    hide Shifted;
    var high := Shifted(s[0] - 0xF0, s[1]);
    var middle := Shifted(high, s[2]);
    ShiftedIs(s[0] - 0xF0, s[1]);
    ShiftedIs(high, s[2]);
    ShiftedIs(middle, s[3]);
    Unshifted(s[0] - 0xF0, s[1]);
    Unshifted(high, s[2]);
    Unshifted(middle, s[3]);
    Slow(Shifted(middle, s[3]));
    Slow(middle);
  }

  // A character of the grammar is decoded, whatever follows.
  lemma CharDecoded(s: seq<Byte>, n: nat)
    requires 1 <= n <= |s| && IsChar(s[..n])
    ensures First(s).Ok? && First(s).value.length == n
  {
    assert forall k :: 0 <= k < n ==> s[..n][k] == s[k];
  }

  // An encoded scalar value is decoded to itself, whatever follows.
  lemma EncodedDecoded(cp: nat, rest: seq<Byte>)
    requires IsScalar(cp)
    ensures First(Encode(cp) + rest) == Ok(Decoded(cp, |Encode(cp)|))
  {
    hide Shifted;
    var c := Encode(cp);
    var s := c + rest;
    assert forall k :: 0 <= k < |c| ==> s[k] == c[k];
    Slow(cp);
    Reshifted(cp);
    Reshifted(cp / 0x40);
    Reshifted(cp / 0x40 / 0x40);
  }

  lemma Reshifted(cp: nat)
    ensures Shifted(cp / 0x40, 0x80 + cp % 0x40) == cp
  {
  }

  // ---- Whole strings -----------------------------------------------------------------------------------

  function Decode(s: seq<Byte>): Result<seq<nat>>
    decreases |s|
  {
    if s == [] then Ok([])
    else
      match First(s)
      case Err(e) => Err(e)
      case Ok(d) =>
        FirstEncoded(s);
        match Decode(s[d.length..])
        case Err(e) => Err(e)
        case Ok(rest) => Ok([d.cp] + rest)
  }

  // Exactly the byte strings of the grammar decode, and to the code points they encode.
  lemma {:induction false} DecodeExact(s: seq<Byte>)
    ensures Decode(s).Ok? <==> WellFormed(s)
    ensures Decode(s).Ok? ==> AllScalar(Decode(s).value) && EncodeAll(Decode(s).value) == s
    decreases |s|
  {
    if s != [] {
      if First(s).Ok? {
        FirstEncoded(s);
        var d := First(s).value;
        DecodeExact(s[d.length..]);
        assert s == s[..d.length] + s[d.length..];
        if Decode(s).Ok? {
          var rest := Decode(s[d.length..]).value;
          assert ([d.cp] + rest)[1..] == rest;
        }
      }
      if n :| 1 <= n <= |s| && IsChar(s[..n]) && WellFormed(s[n..]) {
        CharDecoded(s, n);
      }
    }
  }

  // Decoding inverts encoding.
  lemma {:induction false} EncodeDecode(cps: seq<nat>)
    requires AllScalar(cps)
    ensures Decode(EncodeAll(cps)) == Ok(cps)
  {
    if cps != [] {
      var c, rest := Encode(cps[0]), EncodeAll(cps[1..]);
      EncodedDecoded(cps[0], rest);
      assert (c + rest)[|c|..] == rest;
      EncodeDecode(cps[1..]);
      assert [cps[0]] + cps[1..] == cps;
    }
  }

  // ---- The loops -----------------------------------------------------------------------------------------

  // Moves the index over one character, or leaves it where it is.
  method DecodeOne(text: seq<Byte>, index: nat) returns (cp: Result<nat>, index': nat)
    ensures index >= |text| ==> cp == Err(OutOfRange) && index' == index
    ensures index < |text| ==>
              match First(text[index..])
              case Ok(d) => cp == Ok(d.cp) && index' == index + d.length <= |text|
              case Err(e) => cp == Err(e) && index' == index
  {
    index' := index;
    if index >= |text| { return Err(OutOfRange), index; }
    var b0 := text[index];
    if b0 <= 0x7F { return Ok(b0), index + 1; }
    if 0xC0 <= b0 < 0xE0 {
      if index + 1 >= |text| { return Err(Truncated(2)), index; }
      if !IsTail(text[index + 1]) { return Err(InvalidContinuation), index; }
      var v := Shifted(b0 - 0xC0, text[index + 1]);
      if v < 0x80 { return Err(Overlong), index; }
      return Ok(v), index + 2;
    }
    if 0xE0 <= b0 < 0xF0 {
      if index + 2 >= |text| { return Err(Truncated(3)), index; }
      if !IsTail(text[index + 1]) || !IsTail(text[index + 2]) { return Err(InvalidContinuation), index; }
      var v := Shifted(Shifted(b0 - 0xE0, text[index + 1]), text[index + 2]);
      if v < 0x800 { return Err(Overlong), index; }
      if 0xD800 <= v <= 0xDFFF { return Err(Surrogate), index; }
      return Ok(v), index + 3;
    }
    if 0xF0 <= b0 < 0xF8 {
      if index + 3 >= |text| { return Err(Truncated(4)), index; }
      if !IsTail(text[index + 1]) || !IsTail(text[index + 2]) || !IsTail(text[index + 3]) {
        return Err(InvalidContinuation), index;
      }
      var v := Shifted(Shifted(Shifted(b0 - 0xF0, text[index + 1]), text[index + 2]), text[index + 3]);
      if v < 0x1_0000 || v > 0x10_FFFF { return Err(InvalidScalar), index; }
      return Ok(v), index + 4;
    }
    return Err(InvalidLeadingByte), index;
  }

  // The code points already read, before those still to come.
  function Behind(out: seq<nat>, r: Result<seq<nat>>): Result<seq<nat>> {
    match r
    case Err(e) => Err(e)
    case Ok(rest) => Ok(out + rest)
  }

  lemma BehindMore(out: seq<nat>, cp: nat, r: Result<seq<nat>>)
    ensures Behind(out, Behind([cp], r)) == Behind(out + [cp], r)
  {
    if r.Ok? { assert out + ([cp] + r.value) == (out + [cp]) + r.value; }
  }

  // One turn of the loops.
  method Step(text: seq<Byte>, index: nat) returns (cp: Result<nat>, next: nat)
    requires index < |text|
    ensures cp.Err? ==> Decode(text[index..]) == Err(cp.error)
    ensures cp.Ok? ==> index < next <= |text| && Decode(text[index..]) == Behind([cp.value], Decode(text[next..]))
  {
    hide Decode, First;
    FirstStep(text, index);
    cp, next := DecodeOne(text, index);
  }

  method DecodeCodePoints(text: seq<Byte>) returns (r: Result<seq<nat>>)
    ensures r == Decode(text)
  {
    var index, out: seq<nat> := 0, [];
    assert text[0..] == text;
    assert Behind([], Decode(text)) == Decode(text) by {
      if Decode(text).Ok? { assert [] + Decode(text).value == Decode(text).value; }
    }
    hide Decode, First;
    while index < |text|
      invariant index <= |text|
      invariant Decode(text) == Behind(out, Decode(text[index..]))
      decreases |text| - index
    {
      var cp, next := Step(text, index);
      if cp.Err? { return Err(cp.error); }
      BehindMore(out, cp.value, Decode(text[next..]));
      out := out + [cp.value];
      index := next;
    }
    NothingLeft(text, index);
    assert out + [] == out;
    r := Ok(out);
  }

  lemma NothingLeft(text: seq<Byte>, index: nat)
    requires index == |text|
    ensures Decode(text[index..]) == Ok([])
  {
  }

  lemma FirstStep(text: seq<Byte>, index: nat)
    requires index < |text|
    ensures var s := text[index..];
            match First(s)
            case Err(e) => Decode(s) == Err(e)
            case Ok(d) =>
              && 1 <= d.length <= |s| && s[d.length..] == text[index + d.length..]
              && Decode(s) == Behind([d.cp], Decode(text[index + d.length..]))
  {
    var s := text[index..];
    if First(s).Ok? {
      FirstEncoded(s);
      assert s[First(s).value.length..] == text[index + First(s).value.length..];
    }
  }

  function Counted(count: nat, r: Result<seq<nat>>): Result<nat> {
    match r
    case Ok(cps) => Ok(count + |cps|)
    case Err(e) => Err(e)
  }

  lemma OneMore(count: nat, cp: nat, r: Result<seq<nat>>)
    ensures Counted(count, Behind([cp], r)) == Counted(count + 1, r)
  {
  }

  method CountCodePoints(text: seq<Byte>) returns (r: Result<nat>)
    ensures r == match Decode(text) case Ok(cps) => Ok(|cps|) case Err(e) => Err(e)
  {
    var index, count := 0, 0;
    assert text[0..] == text;
    hide Decode, First, Behind;
    while index < |text|
      invariant index <= |text|
      invariant Counted(0, Decode(text)) == Counted(count, Decode(text[index..]))
      decreases |text| - index
    {
      var cp, next := Step(text, index);
      if cp.Err? { return Err(cp.error); }
      OneMore(count, cp.value, Decode(text[next..]));
      count := count + 1;
      index := next;
    }
    NothingLeft(text, index);
    r := Ok(count);
  }

  // The error alone.
  function Checked(r: Result<seq<nat>>): Result<()> {
    match r
    case Ok(_) => Ok(())
    case Err(e) => Err(e)
  }

  lemma CheckedBehind(cp: nat, r: Result<seq<nat>>)
    ensures Checked(Behind([cp], r)) == Checked(r)
  {
  }

  method Validate(text: seq<Byte>) returns (r: Result<()>)
    ensures r.Ok? <==> WellFormed(text)
    ensures r.Err? ==> Decode(text) == Err(r.error)
  {
    var index := 0;
    assert text[0..] == text;
    DecodeExact(text);
    hide Decode, First, WellFormed, EncodeAll, Behind;
    while index < |text|
      invariant index <= |text|
      invariant Checked(Decode(text)) == Checked(Decode(text[index..]))
      decreases |text| - index
    {
      var cp, next := Step(text, index);
      if cp.Err? { return Err(cp.error); }
      CheckedBehind(cp.value, Decode(text[next..]));
      index := next;
    }
    NothingLeft(text, index);
    r := Ok(());
  }
}
