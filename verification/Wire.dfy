/** Little-endian fields, strings and counted lists, written to a buffer and read back. */
module Wire {
  import opened Bytecode

  type Byte = U8

  // What a reader found, and where it goes on.
  datatype Parsed<+T> = Got(item: T, next: nat) | Bad {
    predicate IsFailure() { Bad? }

    function PropagateFailure<U>(): Parsed<U>
      requires Bad?
    {
      Bad
    }

    function Extract(): (T, nat)
      requires Got?
    {
      (item, next)
    }
  }

  // `w` stands in `bytes` at `off`.
  predicate At(bytes: seq<Byte>, off: nat, w: seq<Byte>) {
    off + |w| <= |bytes| && bytes[off..off + |w|] == w
  }

  lemma SplitAt(bytes: seq<Byte>, off: nat, a: seq<Byte>, b: seq<Byte>)
    requires At(bytes, off, a + b)
    ensures At(bytes, off, a) && At(bytes, off + |a|, b)
  {
    var w := bytes[off..off + |a + b|];
    assert w[..|a|] == (a + b)[..|a|] == a && w[|a|..] == (a + b)[|a|..] == b;
  }

  // ---- Fields ----------------------------------------------------------------------------------------

  // A value is cut down to the width of its field.
  function Write8(x: nat): (w: seq<Byte>)
    ensures |w| == 1
  {
    [x % 0x100]
  }

  function Write16(x: nat): (w: seq<Byte>)
    ensures |w| == 2
  {
    [x % 0x100, x / 0x100 % 0x100]
  }

  function Write32(x: nat): (w: seq<Byte>)
    ensures |w| == 4
  {
    [x % 0x100, x / 0x100 % 0x100, x / 0x1_0000 % 0x100, x / 0x100_0000 % 0x100]
  }

  function Write64(x: nat): (w: seq<Byte>)
    ensures |w| == 8
  {
    Write32(x) + Write32(x / 0x1_0000_0000)
  }

  function Read8(bytes: seq<Byte>, off: nat): (p: Parsed<nat>)
    ensures p.Got? ==> p.item < 0x100 && p.next <= |bytes|
  {
    if off + 1 > |bytes| then Bad else Got(bytes[off] as int, off + 1)
  }

  function Read16(bytes: seq<Byte>, off: nat): (p: Parsed<nat>)
    ensures p.Got? ==> p.item < 0x1_0000 && p.next <= |bytes|
  {
    if off + 2 > |bytes| then Bad else Got(bytes[off] as int + 0x100 * (bytes[off + 1] as int), off + 2)
  }

  function Read32(bytes: seq<Byte>, off: nat): (p: Parsed<nat>)
    ensures p.Got? ==> p.item < 0x1_0000_0000 && p.next <= |bytes|
  {
    if off + 4 > |bytes| then Bad
    else
      Got(bytes[off] as int + 0x100 * (bytes[off + 1] as int) + 0x1_0000 * (bytes[off + 2] as int)
          + 0x100_0000 * (bytes[off + 3] as int), off + 4)
  }

  function Read64(bytes: seq<Byte>, off: nat): (p: Parsed<nat>)
    ensures p.Got? ==> p.item < 0x1_0000_0000_0000_0000 && p.next <= |bytes|
  {
    if off + 8 > |bytes| then Bad
    else Got(Read32(bytes, off).item + 0x1_0000_0000 * Read32(bytes, off + 4).item, off + 8)
  }

  lemma Field8(bytes: seq<Byte>, off: nat, x: nat)
    requires x < 0x100 && At(bytes, off, Write8(x))
    ensures Read8(bytes, off) == Got(x, off + 1)
  {
    assert bytes[off] == bytes[off..off + 1][0];
  }

  lemma Field16(bytes: seq<Byte>, off: nat, x: nat)
    requires x < 0x1_0000 && At(bytes, off, Write16(x))
    ensures Read16(bytes, off) == Got(x, off + 2)
  {
    var w := bytes[off..off + 2];
    assert bytes[off] == w[0] && bytes[off + 1] == w[1];
  }

  // A value is the sum of its digits.
  lemma Digits32(x: nat)
    requires x < 0x1_0000_0000
    ensures x == x % 0x100 + 0x100 * (x / 0x100 % 0x100) + 0x1_0000 * (x / 0x1_0000 % 0x100)
                 + 0x100_0000 * (x / 0x100_0000 % 0x100)
  {
    assert x / 0x1_0000 == x / 0x100 / 0x100 && x / 0x100_0000 == x / 0x100 / 0x100 / 0x100;
  }

  lemma Field32(bytes: seq<Byte>, off: nat, x: nat)
    requires x < 0x1_0000_0000 && At(bytes, off, Write32(x))
    ensures Read32(bytes, off) == Got(x, off + 4)
  {
    var w := bytes[off..off + 4];
    assert bytes[off] == w[0] && bytes[off + 1] == w[1] && bytes[off + 2] == w[2] && bytes[off + 3] == w[3];
    Digits32(x);
  }

  lemma Distributes(d: nat, b: int, k: int)
    ensures d * (b + k) == d * b + d * k
  {
  }

  lemma {:induction false} TimesAtLeast(d: nat, k: nat)
    requires k >= 1
    ensures d * k >= d
  {
    if k > 1 {
      TimesAtLeast(d, k - 1);
      Distributes(d, k - 1, 1);
    }
  }

  lemma SameQuotient(d: nat, a: int, r: nat, b: int, s: nat)
    requires d * a + r == d * b + s && r < d && s < d
    ensures a == b
  {
    if a > b {
      Distributes(d, b, a - b);
      TimesAtLeast(d, a - b);
    } else if b > a {
      Distributes(d, a, b - a);
      TimesAtLeast(d, b - a);
    }
  }

  lemma AddMultiple(low: nat, d: nat, k: nat)
    requires d > 0
    ensures (low + d * k) / d == low / d + k
  {
    var x := low + d * k;
    assert d * (low / d + k) == d * (low / d) + d * k;
    SameQuotient(d, x / d, x % d, low / d + k, low % d);
  }

  // A whole number of bytes further up does not change a byte.
  lemma SameByte(low: nat, d: nat, k: nat)
    requires d > 0
    ensures (low + d * (0x100 * k)) / d % 0x100 == low / d % 0x100
  {
    AddMultiple(low, d, 0x100 * k);
  }

  lemma LowHalf(x: nat)
    ensures Write32(x) == Write32(x % 0x1_0000_0000)
  {
    var low, high := x % 0x1_0000_0000, x / 0x1_0000_0000;
    SameByte(low, 1, 0x100_0000 * high);
    SameByte(low, 0x100, 0x1_0000 * high);
    SameByte(low, 0x1_0000, 0x100 * high);
    SameByte(low, 0x100_0000, high);
    assert x == low + 1 * (0x100 * (0x100_0000 * high)) == low + 0x100 * (0x100 * (0x1_0000 * high))
        == low + 0x1_0000 * (0x100 * (0x100 * high)) == low + 0x100_0000 * (0x100 * high);
  }

  lemma Field64(bytes: seq<Byte>, off: nat, x: nat)
    requires x < 0x1_0000_0000_0000_0000 && At(bytes, off, Write64(x))
    ensures Read64(bytes, off) == Got(x, off + 8)
  {
    SplitAt(bytes, off, Write32(x), Write32(x / 0x1_0000_0000));
    LowHalf(x);
    hide Write32, Read32;
    Field32(bytes, off, x % 0x1_0000_0000);
    Field32(bytes, off + 4, x / 0x1_0000_0000);
  }

  // ---- Strings ----------------------------------------------------------------------------------------

  // Characters are bytes.
  predicate Narrow(s: string) { |s| < 0x1_0000_0000 && forall k :: 0 <= k < |s| ==> s[k] as int < 0x100 }

  function Octets(s: string): seq<Byte> { seq(|s|, k requires 0 <= k < |s| => s[k] as int % 0x100) }

  function WriteString(s: string): seq<Byte> { Write32(|s|) + Octets(s) }

  function Letters(w: seq<Byte>): string { seq(|w|, k requires 0 <= k < |w| => (w[k] as int) as char) }

  function ReadString(bytes: seq<Byte>, off: nat): (p: Parsed<string>)
    ensures p.Got? ==> p.next <= |bytes|
  {
    var (n, o) :- Read32(bytes, off);
    if o + n > |bytes| then Bad else Got(Letters(bytes[o..o + n]), o + n)
  }

  lemma StringRead(bytes: seq<Byte>, off: nat, s: string)
    requires Narrow(s) && At(bytes, off, WriteString(s))
    ensures ReadString(bytes, off) == Got(s, off + |WriteString(s)|)
  {
    SplitAt(bytes, off, Write32(|s|), Octets(s));
    Field32(bytes, off, |s|);
    assert Letters(Octets(s)) == s;
  }

  // ---- Lists --------------------------------------------------------------------------------------------

  function WriteMany<T>(w: T -> seq<Byte>, xs: seq<T>): seq<Byte> {
    if xs == [] then [] else WriteMany(w, xs[..|xs| - 1]) + w(xs[|xs| - 1])
  }

  function ReadMany<T>(r: (seq<Byte>, nat) -> Parsed<T>, bytes: seq<Byte>, off: nat, n: nat): Parsed<seq<T>> {
    if n == 0 then Got([], off)
    else
      var (xs, o) :- ReadMany(r, bytes, off, n - 1);
      var (x, o') :- r(bytes, o);
      Got(xs + [x], o')
  }

  // The reader of elements takes back what their writer wrote.
  ghost predicate TakesBack<T(!new)>(
      w: T -> seq<Byte>, r: (seq<Byte>, nat) -> Parsed<T>, norm: T -> T, good: T -> bool, bytes: seq<Byte>)
  {
    forall x, o: nat :: good(x) && At(bytes, o, w(x)) ==> r(bytes, o) == Got(norm(x), o + |w(x)|)
  }

  function Normal<T>(norm: T -> T, xs: seq<T>): seq<T> { seq(|xs|, k requires 0 <= k < |xs| => norm(xs[k])) }

  lemma {:induction false} ManyRead<T(!new)>(
      w: T -> seq<Byte>, r: (seq<Byte>, nat) -> Parsed<T>, norm: T -> T, good: T -> bool,
      bytes: seq<Byte>, off: nat, xs: seq<T>)
    requires TakesBack(w, r, norm, good, bytes) && (forall k :: 0 <= k < |xs| ==> good(xs[k]))
    requires At(bytes, off, WriteMany(w, xs))
    ensures ReadMany(r, bytes, off, |xs|) == Got(Normal(norm, xs), off + |WriteMany(w, xs)|)
    decreases |xs|
  {
    if xs != [] {
      var k := |xs| - 1;
      SplitAt(bytes, off, WriteMany(w, xs[..k]), w(xs[k]));
      ManyRead(w, r, norm, good, bytes, off, xs[..k]);
      assert good(xs[k]);
      assert Normal(norm, xs[..k]) + [norm(xs[k])] == Normal(norm, xs);
    } else {
      assert Normal(norm, xs) == [];
    }
  }

  // ---- The buffer --------------------------------------------------------------------------------------

  class Buffer {
    var out: seq<Byte>

    constructor ()
      ensures out == []
    {
      out := [];
    }

    method PutU16(x: nat)
      modifies this
      ensures out == old(out) + Write16(x)
    {
      out := out + [x % 0x100];
      out := out + [x / 0x100 % 0x100];
    }

    method PutU32(x: nat)
      modifies this
      ensures out == old(out) + Write32(x)
    {
      var rest := x;
      for i := 0 to 4
        invariant rest == (if i == 0 then x else if i == 1 then x / 0x100 else if i == 2 then x / 0x1_0000
                           else if i == 3 then x / 0x100_0000 else x / 0x1_0000_0000)
        invariant out == old(out) + Write32(x)[..i]
      {
        out := out + [rest % 0x100];
        rest := rest / 0x100;
      }
    }

    method PutU64(x: nat)
      modifies this
      ensures out == old(out) + Write64(x)
    {
      PutU32(x);
      PutU32(x / 0x1_0000_0000);
    }

    method PutString(s: string)
      modifies this
      ensures out == old(out) + WriteString(s)
    {
      PutU32(|s|);
      for i := 0 to |s|
        invariant out == old(out) + (Write32(|s|) + Octets(s)[..i])
      {
        out := out + [s[i] as int % 0x100];
      }
      assert Octets(s)[..|s|] == Octets(s);
    }

    // A list, element by element.
    method PutMany<T>(w: T -> seq<Byte>, xs: seq<T>)
      modifies this
      ensures out == old(out) + WriteMany(w, xs)
    {
      for i := 0 to |xs|
        invariant out == old(out) + WriteMany(w, xs[..i])
      {
        out := out + w(xs[i]);
        assert xs[..i + 1][..i] == xs[..i];
      }
      assert xs[..|xs|] == xs;
    }
  }

  method GetMany<T>(r: (seq<Byte>, nat) -> Parsed<T>, bytes: seq<Byte>, off: nat, n: nat) returns (p: Parsed<seq<T>>)
    ensures p == ReadMany(r, bytes, off, n)
  {
    var xs: seq<T>, o := [], off;
    for i := 0 to n
      invariant ReadMany(r, bytes, off, i) == Got(xs, o)
    {
      var one := r(bytes, o);
      if one.Bad? {
        BadStays(r, bytes, off, i + 1, n);
        return Bad;
      }
      xs, o := xs + [one.item], one.next;
    }
    p := Got(xs, o);
  }

  lemma {:induction false} BadStays<T>(r: (seq<Byte>, nat) -> Parsed<T>, bytes: seq<Byte>, off: nat, k: nat, n: nat)
    requires k <= n && ReadMany(r, bytes, off, k) == Bad
    ensures ReadMany(r, bytes, off, n) == Bad
    decreases n
  {
    if k < n { BadStays(r, bytes, off, k, n - 1); }
  }
}
