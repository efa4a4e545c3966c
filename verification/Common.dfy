/** Types shared by the models: optional values, bytes and 16-bit fields. */
module Common {

  datatype Option<+T> = None | Some(value: T)

  type byte = x: int | 0 <= x < 256

  type u16 = x: int | 0 <= x < 0x1_0000

  function Min(a: int, b: int): int {
    if a <= b then a else b
  }

  function Max(a: int, b: int): int {
    if a <= b then b else a
  }

  // The big-endian 16-bit field that starts at `at` (the "!H" format).
  function U16At(s: seq<byte>, at: nat): (v: u16)
    requires at + 2 <= |s|
  {
    (s[at] as int) * 256 + s[at + 1]
  }

  function PutU16(v: u16): (s: seq<byte>)
    ensures |s| == 2 && U16At(s, 0) == v
  {
    [v / 256, v % 256]
  }

  type u32 = x: int | 0 <= x < 0x1_0000_0000

  // The big-endian 32-bit field that starts at `at` (the "!I" format).
  function U32At(s: seq<byte>, at: nat): (v: u32)
    requires at + 4 <= |s|
  {
    U16At(s, at) * 0x1_0000 + U16At(s, at + 2)
  }

  function PutU32(v: u32): (s: seq<byte>)
    ensures |s| == 4 && U32At(s, 0) == v
  {
    var high, low := PutU16(v / 0x1_0000), PutU16(v % 0x1_0000);
    assert U16At(high + low, 0) == U16At(high, 0) && U16At(high + low, 2) == U16At(low, 0);
    high + low
  }

  lemma ConcatAssociates<T>(a: seq<T>, b: seq<T>, c: seq<T>)
    ensures (a + b) + c == a + (b + c)
  {
  }

  // ASCII bytes as text.
  function Text(s: seq<byte>): string { seq(|s|, i requires 0 <= i < |s| => s[i] as char) }

  // The last `n` elements, none when n <= 0.
  function LastN<T>(s: seq<T>, n: int): seq<T> {
    if n <= 0 then [] else s[Max(0, |s| - n)..]
  }

  lemma HasMember<T>(s: set<T>)
    requires s != {}
    ensures exists x :: x in s
  {
    if forall x :: x !in s {
      assert false;
    }
  }

  lemma SubsetSize<T>(a: set<T>, b: set<T>)
    requires a <= b
    ensures |a| <= |b|
  {
    assert a + (b - a) == b;
  }
}
