/** Numbers as a fixed count of bytes, the most significant first. */
module BigEndian {
  type Byte = n: nat | n < 256

  type Bytes = seq<Byte>

  function Power(width: nat): (p: nat)
    ensures p > 0
  {
    if width == 0 then 1 else 256 * Power(width - 1)
  }

  function Put(n: nat, width: nat): (b: Bytes)
    ensures |b| == width
    decreases width
  {
    if width == 0 then [] else Put(n / 256, width - 1) + [n % 256]
  }

  function Value(b: Bytes): nat
    decreases |b|
  {
    if b == [] then 0 else Value(b[..|b| - 1]) * 256 + b[|b| - 1]
  }

  lemma {:induction false} ValueOfPut(n: nat, width: nat)
    requires n < Power(width)
    ensures Value(Put(n, width)) == n
    decreases width
  {
    if width > 0 {
      ValueOfPut(n / 256, width - 1);
      assert Put(n, width)[..width - 1] == Put(n / 256, width - 1);
    }
  }

  lemma {:induction false} PutOfValue(b: Bytes)
    ensures Value(b) < Power(|b|) && Put(Value(b), |b|) == b
    decreases |b|
  {
    if b != [] {
      var init := b[..|b| - 1];
      PutOfValue(init);
      assert Value(b) / 256 == Value(init) && Value(b) % 256 == b[|b| - 1];
      assert b == init + [b[|b| - 1]];
    }
  }
}
