/** UTF-8 byte offsets and UTF-16 units over strings of scalar values. */
module Unicode {
  import opened Contracts

  function Utf8Len(c: char): nat {
    if c < '\U{80}' then 1 else if c < '\U{800}' then 2 else if c < '\U{10000}' then 3 else 4
  }

  function Utf16Len(c: char): nat {
    if c < '\U{10000}' then 1 else 2
  }

  /** A scalar value as one unit or as a surrogate pair. */
  function Utf16(c: char): (units: seq<nat>)
    ensures |units| == Utf16Len(c)
  {
    if c < '\U{10000}' then [c as int]
    else
      var v := c as int - 0x10000;
      [0xD800 + v / 0x400, 0xDC00 + v % 0x400]
  }

  /** Length in UTF-8 bytes. */
  function Bytes(s: string): nat {
    if s == [] then 0 else Bytes(s[..|s| - 1]) + Utf8Len(s[|s| - 1])
  }

  /** Length in UTF-16 units. */
  function Units(s: string): nat {
    if s == [] then 0 else Units(s[..|s| - 1]) + Utf16Len(s[|s| - 1])
  }

  function Encode16(s: string): (units: seq<nat>)
    ensures |units| == Units(s)
  {
    if s == [] then [] else Encode16(s[..|s| - 1]) + Utf16(s[|s| - 1])
  }

  lemma {:induction false} BytesConcat(a: string, b: string)
    ensures Bytes(a + b) == Bytes(a) + Bytes(b)
  {
    if b == [] {
      assert a + b == a;
    } else {
      BytesConcat(a, b[..|b| - 1]);
      assert (a + b)[..|a + b| - 1] == a + b[..|b| - 1];
    }
  }

  lemma LastOfConcat(a: string, b: string)
    requires b != []
    ensures a + b != [] && (a + b)[..|a + b| - 1] == a + b[..|b| - 1] && (a + b)[|a + b| - 1] == b[|b| - 1]
  {
  }

  lemma Associates<T>(a: seq<T>, b: seq<T>, c: seq<T>)
    ensures (a + b) + c == a + (b + c)
  {
  }

  lemma {:induction false} EncodeConcat(a: string, b: string)
    ensures Encode16(a + b) == Encode16(a) + Encode16(b)
    ensures Units(a + b) == Units(a) + Units(b)
  {
    if b == [] {
      assert a + b == a;
    } else {
      var init := b[..|b| - 1];
      EncodeConcat(a, init);
      LastOfConcat(a, b);
      Associates(Encode16(a), Encode16(init), Utf16(b[|b| - 1]));
    }
  }

  lemma PrefixGrows(s: string, i: nat, j: nat)
    requires i <= j <= |s|
    ensures Bytes(s[..j]) == Bytes(s[..i]) + Bytes(s[i..j])
    ensures Units(s[..j]) == Units(s[..i]) + Units(s[i..j])
    ensures Bytes(s[..j]) >= Bytes(s[..i]) + (j - i)
  {
    assert s[..j] == s[..i] + s[i..j];
    BytesConcat(s[..i], s[i..j]);
    EncodeConcat(s[..i], s[i..j]);
    AtLeastOneByte(s[i..j]);
  }

  lemma {:induction false} AtLeastOneByte(s: string)
    ensures Bytes(s) >= |s|
  {
    if s != [] {
      AtLeastOneByte(s[..|s| - 1]);
    }
  }

  /** Slicing the encoding at character boundaries encodes the slice. */
  lemma EncodedSlice(s: string, i: nat, j: nat)
    requires i <= j <= |s|
    ensures Units(s[..i]) <= Units(s[..j]) <= Units(s)
    ensures Encode16(s)[Units(s[..i])..Units(s[..j])] == Encode16(s[i..j])
  {
    EncodeCut(s, j);
    EncodeCut(s[..j], i);
    assert s[..j][..i] == s[..i] && s[..j][i..] == s[i..j];
    MiddleOf(Encode16(s), Encode16(s[..i]), Encode16(s[i..j]), Encode16(s[j..]));
  }

  lemma EncodeCut(s: string, j: nat)
    requires j <= |s|
    ensures Encode16(s) == Encode16(s[..j]) + Encode16(s[j..])
    ensures Units(s[..j]) <= Units(s)
  {
    assert s == s[..j] + s[j..];
    EncodeConcat(s[..j], s[j..]);
  }

  lemma MiddleOf<T>(whole: seq<T>, a: seq<T>, b: seq<T>, c: seq<T>)
    requires whole == a + b + c
    ensures whole[|a|..|a| + |b|] == b
  {
    Middle(a, b, c);
  }

  lemma Middle<T>(a: seq<T>, b: seq<T>, c: seq<T>)
    ensures (a + b + c)[|a|..|a + b|] == b
  {
  }

  // ---- Byte ranges of a string ----

  /** The number of characters before this byte offset, when it is a character boundary. */
  function CharIndex(s: string, byte: nat): (r: Option<nat>)
    ensures r.Some? ==> r.value <= |s| && Bytes(s[..r.value]) == byte
  {
    if byte == Bytes(s) then
      assert s[..|s|] == s;
      Some(|s|)
    else if s == [] then None
    else
      var r := CharIndex(s[..|s| - 1], byte);
      assert r.Some? ==> s[..|s| - 1][..r.value] == s[..r.value];
      r
  }

  lemma {:induction false} CharIndexComplete(s: string, k: nat)
    requires k <= |s|
    ensures CharIndex(s, Bytes(s[..k])) == Some(k)
  {
    if k == |s| {
      assert s[..k] == s;
    } else {
      PrefixGrows(s, k, |s|);
      assert s[..|s|] == s;
      assert s[..|s| - 1][..k] == s[..k];
      CharIndexComplete(s[..|s| - 1], k);
    }
  }

  /** Substring by byte range; nothing when an end is not a character boundary or the range is reversed. */
  function GetBytes(s: string, from: nat, to: nat): Option<string> {
    var i, j := CharIndex(s, from), CharIndex(s, to);
    if i.Some? && j.Some? && i.value <= j.value then Some(s[i.value..j.value]) else None
  }

  /** The table of UTF-16 offsets by byte for the first n boundaries, zero everywhere else. */
  predicate Filled(table: seq<nat>, text: string, n: nat)
    requires n <= |text| + 1
  {
    && |table| == Bytes(text) + 1
    && (forall k :: 0 <= k < n ==> BoundaryHolds(table, text, k))
    && (forall b :: 0 <= b < |table| && !IsBoundaryBelow(text, b, n) ==> table[b] == 0)
  }

  predicate BoundaryHolds(table: seq<nat>, text: string, k: nat)
    requires k <= |text|
  {
    Bytes(text[..k]) < |table| && table[Bytes(text[..k])] == Units(text[..k])
  }

  predicate IsBoundaryBelow(text: string, b: nat, n: nat) {
    CharIndex(text, b).Some? && CharIndex(text, b).value < n
  }

  predicate IsLookup(table: seq<nat>, text: string) {
    Filled(table, text, |text| + 1)
  }

  lemma FillStep(table: seq<nat>, text: string, n: nat)
    requires n <= |text| && Filled(table, text, n)
    ensures Bytes(text[..n]) < |table|
    ensures Filled(table[Bytes(text[..n]) := Units(text[..n])], text, n + 1)
  {
    PrefixGrows(text, n, |text|);
    assert text[..|text|] == text;
    CharIndexComplete(text, n);
    var filled := table[Bytes(text[..n]) := Units(text[..n])];
    forall k | 0 <= k < n + 1 ensures BoundaryHolds(filled, text, k) {
      if k < n {
        PrefixGrows(text, k, n);
        assert BoundaryHolds(table, text, k);
      }
    }
    forall b | 0 <= b < |filled| && !IsBoundaryBelow(text, b, n + 1) ensures filled[b] == 0 {
      assert !IsBoundaryBelow(text, b, n);
    }
  }

  /** One pass over the characters; each prefix is counted once. */
  method BuildLookup(text: string) returns (lookup: array<nat>)
    ensures fresh(lookup) && IsLookup(lookup[..], text)
  {
    lookup := new nat[Bytes(text) + 1](_ => 0);
    var byte, units := 0, 0;
    assert text[..0] == [];
    for i := 0 to |text|
      invariant byte == Bytes(text[..i]) && units == Units(text[..i])
      invariant Filled(lookup[..], text, i)
    {
      FillStep(lookup[..], text, i);
      assert text[..i + 1][..i] == text[..i];
      lookup[byte] := units;
      byte := byte + Utf8Len(text[i]);
      units := units + Utf16Len(text[i]);
    }
    assert text[..|text|] == text;
    FillStep(lookup[..], text, |text|);
    lookup[Bytes(text)] := units;
  }
}
