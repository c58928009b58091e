/** Well-formed UTF-8 (section 3 of RFC 3629), and where it may be cut. */
module Utf8 {
  import opened Basics

  predicate Continuation(b: Byte) {
    0x80 <= b < 0xC0
  }

  predicate RuneStart(b: Byte) {
    !Continuation(b)
  }

  /** The bytes of the first character, or 0 where there is none. */
  function RuneLength(s: Bytes): (n: nat)
    ensures n <= |s| && n <= 4
  {
    if s == [] then 0
    else if s[0] < 0x80 then 1
    else if 0xC2 <= s[0] < 0xE0 then
      if |s| >= 2 && Continuation(s[1]) then 2 else 0
    else if 0xE0 <= s[0] < 0xF0 then
      if |s| >= 3 && Continuation(s[1]) && Continuation(s[2])
         && (s[0] == 0xE0 ==> s[1] >= 0xA0) && (s[0] == 0xED ==> s[1] < 0xA0) then 3 else 0
    else if 0xF0 <= s[0] < 0xF5 then
      if |s| >= 4 && Continuation(s[1]) && Continuation(s[2]) && Continuation(s[3])
         && (s[0] == 0xF0 ==> s[1] >= 0x90) && (s[0] == 0xF4 ==> s[1] < 0x90) then 4 else 0
    else 0
  }

  predicate ValidString(s: Bytes) {
    s == [] || (RuneLength(s) > 0 && ValidString(s[RuneLength(s)..]))
  }

  // ----- What is encoded -----

  /** The characters there are: no surrogate, and none above U+10FFFF. */
  predicate Scalar(c: nat) {
    c < 0xD800 || 0xE000 <= c < 0x110000
  }

  /** A byte that carries the lowest six bits. */
  function Low(c: nat): Byte {
    (0x80 + c % 0x40) as Byte
  }

  function Encode(c: nat): (s: Bytes)
    requires Scalar(c)
    ensures s != []
  {
    if c < 0x80 then [c as Byte]
    else if c < 0x800 then [(0xC0 + c / 0x40) as Byte, Low(c)]
    else if c < 0x10000 then [(0xE0 + c / 0x1000) as Byte, Low(c / 0x40), Low(c)]
    else [(0xF0 + c / 0x40000) as Byte, Low(c / 0x1000), Low(c / 0x40), Low(c)]
  }

  function EncodeAll(text: seq<nat>): Bytes
    requires forall c :: c in text ==> Scalar(c)
  {
    if text == [] then [] else Encode(text[0]) + EncodeAll(text[1..])
  }

  /** What is encoded is read as one character of its own length. */
  lemma EncodedIsRead(c: nat, rest: Bytes)
    requires Scalar(c)
    ensures RuneLength(Encode(c) + rest) == |Encode(c)|
  {
  }

  lemma SixBits(a: nat, b: nat)
    requires b < 0x40
    ensures (a * 0x40 + b) / 0x40 == a && (a * 0x40 + b) % 0x40 == b
  {
  }

  /** A number and the six bits the next byte carries. */
  function Then(a: nat, b: Byte): (c: nat)
    requires Continuation(b)
    ensures c / 0x40 == a && Low(c) == b
  {
    SixBits(a, b as int - 0x80);
    a * 0x40 + (b as int - 0x80)
  }

  /** And what is read is the encoding of some character. */
  lemma ReadIsEncoded(s: Bytes) returns (c: nat)
    requires RuneLength(s) > 0
    ensures Scalar(c) && s[..RuneLength(s)] == Encode(c)
  {
    var n, head := RuneLength(s), s[0] as int;
    if n == 1 {
      c := head;
    } else if n == 2 {
      c := Then(head - 0xC0, s[1]);
    } else if n == 3 {
      var upper := Then(head - 0xE0, s[1]);
      c := Then(upper, s[2]);
      assert c / 0x1000 == upper / 0x40;
    } else {
      var top := Then(head - 0xF0, s[1]);
      var upper := Then(top, s[2]);
      c := Then(upper, s[3]);
      assert c / 0x1000 == upper / 0x40 && c / 0x40000 == top / 0x40;
    }
  }

  lemma {:induction false} EncodedIsValid(text: seq<nat>)
    requires forall c :: c in text ==> Scalar(c)
    ensures ValidString(EncodeAll(text))
  {
    if text != [] {
      EncodedIsRead(text[0], EncodeAll(text[1..]));
      EncodedIsValid(text[1..]);
      assert EncodeAll(text)[|Encode(text[0])|..] == EncodeAll(text[1..]);
    }
  }

  lemma {:induction false} ValidIsEncoded(s: Bytes) returns (text: seq<nat>)
    requires ValidString(s)
    ensures (forall c :: c in text ==> Scalar(c)) && EncodeAll(text) == s
    decreases |s|
  {
    text := [];
    if s != [] {
      var c := ReadIsEncoded(s);
      var rest := ValidIsEncoded(s[RuneLength(s)..]);
      text := [c] + rest;
      assert text[1..] == rest;
      assert s == s[..RuneLength(s)] + s[RuneLength(s)..];
    }
  }

  /** Well-formed text is exactly what some characters encode to. */
  lemma ValidIff(s: Bytes)
    ensures ValidString(s) <==> exists text: seq<nat> :: (forall c :: c in text ==> Scalar(c)) && EncodeAll(text) == s
  {
    if ValidString(s) {
      var text := ValidIsEncoded(s);
    }
    forall text: seq<nat> | (forall c :: c in text ==> Scalar(c)) && EncodeAll(text) == s ensures ValidString(s) {
      EncodedIsValid(text);
    }
  }

  /** A character's first byte starts it and none of its others does. */
  lemma RuneShape(s: Bytes)
    requires RuneLength(s) > 0
    ensures RuneStart(s[0]) && forall i :: 0 < i < RuneLength(s) ==> Continuation(s[i])
  {
  }

  /** A prefix of well-formed text is well-formed exactly when it ends where a
      character starts, or at the end. */
  lemma {:induction false} PrefixValidIff(s: Bytes, k: nat)
    requires ValidString(s) && k <= |s|
    ensures ValidString(s[..k]) <==> k == |s| || RuneStart(s[k])
    decreases |s|
  {
    if s != [] && k > 0 {
      var n := RuneLength(s);
      RuneShape(s);
      if k < n {
        assert RuneLength(s[..k]) == 0;
      } else {
        assert RuneLength(s[..k]) == n;
        assert s[..k][n..] == s[n..][..k - n];
        PrefixValidIff(s[n..], k - n);
      }
    }
  }

  /** What follows a well-formed prefix of well-formed text is well-formed. */
  lemma {:induction false} RestValid(s: Bytes, k: nat)
    requires ValidString(s) && k <= |s| && ValidString(s[..k])
    ensures ValidString(s[k..])
    decreases |s|
  {
    if s != [] && k > 0 {
      var n := RuneLength(s);
      RuneShape(s);
      PrefixValidIff(s, k);
      assert k >= n && RuneLength(s[..k]) == n;
      assert s[..k][n..] == s[n..][..k - n];
      RestValid(s[n..], k - n);
      assert s[n..][k - n..] == s[k..];
    }
  }

  /** A character starts right after a one-byte character. */
  lemma {:induction false} AfterAscii(s: Bytes, i: nat)
    requires ValidString(s) && i < |s| && s[i] < 0x80
    ensures ValidString(s[..i + 1])
    decreases |s|
  {
    var n := RuneLength(s);
    RuneShape(s);
    if i < n {
      assert i == 0 && n == 1;
      assert s[..1][1..] == [];
    } else {
      AfterAscii(s[n..], i - n);
      assert RuneLength(s[..i + 1]) == n;
      assert s[..i + 1][n..] == s[n..][..i - n + 1];
    }
  }

  /** Well-formed text has a character starting within any four bytes. */
  lemma {:induction false} StartNearby(s: Bytes, k: nat)
    requires ValidString(s) && 3 <= k < |s|
    ensures exists j :: k - 3 <= j <= k && RuneStart(s[j])
    decreases |s|
  {
    var n := RuneLength(s);
    RuneShape(s);
    if k - 3 < n {
      if n <= k {
        RuneShape(s[n..]);
        assert s[n..][0] == s[n];
      } else {
        assert k - 3 == 0 && n == 4;
      }
    } else {
      StartNearby(s[n..], k - n);
      var j :| k - n - 3 <= j <= k - n && RuneStart(s[n..][j]);
      assert s[n..][j] == s[n + j];
    }
  }
}
