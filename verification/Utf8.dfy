/** Terminal output as bytes and as text: UTF-8 and its lossy reading. */
module Utf8 {

  type byte = b: int | 0 <= b < 256

  const REPLACEMENT: char := '\U{FFFD}'

  function Encode(c: char): (bytes: seq<byte>)
    ensures 1 <= |bytes| <= 4
  {
    var n := c as int;
    if n < 0x80 then [n]
    else if n < 0x800 then [0xC0 + n / 64, 0x80 + n % 64]
    else if n < 0x1_0000 then [0xE0 + n / 4096, 0x80 + n / 64 % 64, 0x80 + n % 64]
    else [0xF0 + n / 262144, 0x80 + n / 4096 % 64, 0x80 + n / 64 % 64, 0x80 + n % 64]
  }

  function Encoded(s: string): seq<byte> {
    if s == "" then [] else Encode(s[0]) + Encoded(s[1..])
  }

  predicate Continues(b: byte) { 0x80 <= b <= 0xBF }

  /** The second bytes that may follow a given first byte: no overlong forms, no
      surrogates, nothing above U+10FFFF. */
  predicate MayFollow(first: byte, b: byte) {
    if first == 0xE0 then 0xA0 <= b <= 0xBF
    else if first == 0xED then 0x80 <= b <= 0x9F
    else if first == 0xF0 then 0x90 <= b <= 0xBF
    else if first == 0xF4 then 0x80 <= b <= 0x8F
    else Continues(b)
  }

  /** A character and the number of bytes it takes; a broken sequence reads as one
      replacement character for as many bytes as could have begun a character. */
  datatype Reading = Reading(c: char, length: nat)

  /** The payload of a byte whose marker is `marker`. */
  function Bits(b: byte, marker: int): int { b - marker }

  function Next(s: seq<byte>): (r: Reading)
    requires s != []
    ensures 1 <= r.length <= |s|
  {
    var b := s[0];
    if b < 0x80 then Reading(b as char, 1)
    else if b < 0xC2 || b > 0xF4 || |s| < 2 || !MayFollow(b, s[1]) then Reading(REPLACEMENT, 1)
    else if b <= 0xDF then Reading((Bits(b, 0xC0) * 64 + Bits(s[1], 0x80)) as char, 2)
    else if |s| < 3 || !Continues(s[2]) then Reading(REPLACEMENT, 2)
    else if b <= 0xEF then Reading((Bits(b, 0xE0) * 4096 + Bits(s[1], 0x80) * 64 + Bits(s[2], 0x80)) as char, 3)
    else if |s| < 4 || !Continues(s[3]) then Reading(REPLACEMENT, 3)
    else
      Reading((Bits(b, 0xF0) * 262144 + Bits(s[1], 0x80) * 4096 + Bits(s[2], 0x80) * 64 + Bits(s[3], 0x80)) as char, 4)
  }

  function Lossy(s: seq<byte>): string {
    if s == [] then "" else [Next(s).c] + Lossy(s[Next(s).length..])
  }

  ghost predicate IsUtf8(data: seq<byte>) { exists s: string :: Encoded(s) == data }

  lemma NextOfTwo(c: char, rest: seq<byte>)
    requires 0x80 <= c as int < 0x800
    ensures Next(Encode(c) + rest) == Reading(c, 2)
  {
  }

  lemma NextOfThree(c: char, rest: seq<byte>)
    requires 0x800 <= c as int < 0x1_0000
    ensures Next(Encode(c) + rest) == Reading(c, 3)
  {
    var n := c as int;
    assert n / 64 / 64 == n / 4096;
  }

  lemma NextOfFour(c: char, rest: seq<byte>)
    requires 0x1_0000 <= c as int
    ensures Next(Encode(c) + rest) == Reading(c, 4)
  {
    var n := c as int;
    assert n / 64 / 64 == n / 4096 && n / 4096 / 64 == n / 262144;
  }

  lemma NextOfEncode(c: char, rest: seq<byte>)
    ensures Next(Encode(c) + rest) == Reading(c, |Encode(c)|)
  {
    if c as int >= 0x1_0000 {
      NextOfFour(c, rest);
    } else if c as int >= 0x800 {
      NextOfThree(c, rest);
    } else if c as int >= 0x80 {
      NextOfTwo(c, rest);
    }
  }

  /** Encoded text is read back unharmed. */
  lemma {:induction false} LossyOfEncoded(s: string)
    ensures Lossy(Encoded(s)) == s
  {
    if s != "" {
      var rest := Encoded(s[1..]);
      LossyOfEncoded(s[1..]);
      NextOfEncode(s[0], rest);
      assert (Encode(s[0]) + rest)[|Encode(s[0])|..] == rest;
    }
  }

  /** The lossy reading keeps the bytes exactly when they are the encoding of some text. */
  lemma LossyIsFaithfulIff(data: seq<byte>)
    ensures Encoded(Lossy(data)) == data <==> IsUtf8(data)
  {
    if IsUtf8(data) {
      var s: string :| Encoded(s) == data;
      LossyOfEncoded(s);
    }
  }

  lemma {:induction false} EncodedConcat(s: string, t: string)
    ensures Encoded(s + t) == Encoded(s) + Encoded(t)
  {
    hide Encode;
    if s == "" {
      assert s + t == t;
    } else {
      EncodedConcat(s[1..], t);
      assert (s + t)[1..] == s[1..] + t;
    }
  }

  // ---- reading piece by piece ----

  /** The reading of the first character only looks at its own bytes and the one behind. */
  lemma NextOfPrefix(a: seq<byte>, b: seq<byte>)
    requires a != []
    ensures var r := Next(a + b);
            Next(a) == if r.length <= |a| then r else Reading(REPLACEMENT, |a|)
  {
    assert forall i :: 0 <= i < |a| ==> (a + b)[i] == a[i];
  }

  /** What follows the first byte of a reading are continuation bytes. */
  lemma RestContinues(s: seq<byte>, i: nat)
    requires s != [] && 1 <= i < Next(s).length
    ensures Continues(s[i])
  {
  }

  /** Bytes left over from a split character read as one replacement each. */
  lemma {:induction false} LeftOver(y: seq<byte>, rest: seq<byte>)
    requires forall i :: 0 <= i < |y| ==> Continues(y[i])
    ensures |Lossy(y + rest)| == |y| + |Lossy(rest)|
  {
    if y == [] {
      assert y + rest == rest;
    } else {
      LeftOver(y[1..], rest);
      assert (y + rest)[1..] == y[1..] + rest;
      assert Next(y + rest) == Reading(REPLACEMENT, 1);
    }
  }

  /** `b` begins where a reading of `a + b` begins. */
  predicate Boundary(a: seq<byte>, b: seq<byte>)
    decreases |a|
  {
    a == [] || (Next(a + b).length <= |a| && Boundary(a[Next(a + b).length..], b))
  }

  lemma SplitInside(a: seq<byte>, b: seq<byte>)
    requires a != [] && Next(a + b).length > |a|
    ensures |Lossy(a)| + |Lossy(b)| > |Lossy(a + b)|
  {
    var n := Next(a + b).length;
    var y, rest := b[..n - |a|], b[n - |a|..];
    NextOfPrefix(a, b);
    assert a[|a|..] == [] && Lossy(a) == [REPLACEMENT];
    assert b == y + rest && (a + b)[n..] == rest;
    forall i | 0 <= i < |y| ensures Continues(y[i]) {
      assert (a + b)[|a| + i] == y[i];
      RestContinues(a + b, |a| + i);
    }
    LeftOver(y, rest);
  }

  lemma StepOver(a: seq<byte>, b: seq<byte>)
    requires a != [] && Next(a + b).length <= |a|
    ensures var n := Next(a + b).length;
            && Next(a) == Next(a + b) && (a + b)[n..] == a[n..] + b
            && Lossy(a) == [Next(a).c] + Lossy(a[n..]) && Lossy(a + b) == [Next(a).c] + Lossy(a[n..] + b)
  {
    NextOfPrefix(a, b);
  }

  /** A split never loses characters from the count, and keeps it only at a boundary. */
  lemma {:induction false} SplitCount(a: seq<byte>, b: seq<byte>)
    ensures Boundary(a, b) ==> Lossy(a) + Lossy(b) == Lossy(a + b)
    ensures !Boundary(a, b) ==> |Lossy(a)| + |Lossy(b)| > |Lossy(a + b)|
    decreases |a|
  {
    if a == [] {
      assert a + b == b;
    } else if Next(a + b).length > |a| {
      SplitInside(a, b);
    } else {
      StepOver(a, b);
      SplitCount(a[Next(a + b).length..], b);
    }
  }

  /** A boundary in well-formed text leaves well-formed text on both sides. */
  lemma {:induction false} BoundaryOfText(a: seq<byte>, b: seq<byte>, s: string)
    requires Boundary(a, b) && Encoded(s) == a + b
    ensures IsUtf8(a) && IsUtf8(b)
    decreases |a|
  {
    if a == [] {
      assert a + b == b && Encoded("") == a;
    } else {
      hide Next, Lossy;
      assert s != "";
      var n := |Encode(s[0])|;
      NextOfEncode(s[0], Encoded(s[1..]));
      StepOver(a, b);
      SplitBehind(Encode(s[0]), Encoded(s[1..]), a, b);
      BoundaryOfText(a[n..], b, s[1..]);
      CharacterBefore(s[0], a[n..]);
    }
  }

  lemma SplitBehind(e: seq<byte>, more: seq<byte>, a: seq<byte>, b: seq<byte>)
    requires e + more == a + b && |e| <= |a|
    ensures more == a[|e|..] + b && a == e + a[|e|..]
  {
    assert more == (e + more)[|e|..];
    assert e == (e + more)[..|e|];
  }

  lemma CharacterBefore(c: char, tail: seq<byte>)
    requires IsUtf8(tail)
    ensures IsUtf8(Encode(c) + tail)
  {
    var s: string :| Encoded(s) == tail;
    assert ([c] + s)[1..] == s;
    assert Encoded([c] + s) == Encode(c) + tail;
  }

  function Whole(chunks: seq<seq<byte>>): seq<byte> { if chunks == [] then [] else chunks[0] + Whole(chunks[1..]) }

  function LossyEach(chunks: seq<seq<byte>>): string {
    if chunks == [] then "" else Lossy(chunks[0]) + LossyEach(chunks[1..])
  }

  lemma {:induction false} EachAtLeastWhole(chunks: seq<seq<byte>>)
    ensures |LossyEach(chunks)| >= |Lossy(Whole(chunks))|
  {
    if chunks != [] {
      EachAtLeastWhole(chunks[1..]);
      SplitCount(chunks[0], Whole(chunks[1..]));
    }
  }

  /** Output that is well-formed as a whole is recorded faithfully chunk by chunk if and
      only if every chunk consists of whole characters. */
  lemma {:induction false} ChunksAreFaithfulIff(chunks: seq<seq<byte>>)
    requires IsUtf8(Whole(chunks))
    ensures LossyEach(chunks) == Lossy(Whole(chunks)) <==> forall i :: 0 <= i < |chunks| ==> IsUtf8(chunks[i])
  {
    if chunks != [] {
      var a, rest := chunks[0], Whole(chunks[1..]);
      SplitCount(a, rest);
      EachAtLeastWhole(chunks[1..]);
      if Boundary(a, rest) {
        var s: string :| Encoded(s) == a + rest;
        BoundaryOfText(a, rest, s);
        ChunksAreFaithfulIff(chunks[1..]);
        FirstAndRest(chunks);
        Cancel(Lossy(a), LossyEach(chunks[1..]), Lossy(rest));
      } else {
        if forall i :: 0 <= i < |chunks| ==> IsUtf8(chunks[i]) {
          assert IsUtf8(a);
          WholeCharactersEndAtBoundary(a, rest);
        }
      }
    }
  }

  lemma Cancel(p: string, x: string, y: string)
    ensures p + x == p + y <==> x == y
  {
    if p + x == p + y {
      assert x == (p + x)[|p|..] && y == (p + y)[|p|..];
    }
  }

  lemma FirstAndRest(chunks: seq<seq<byte>>)
    requires chunks != []
    ensures (forall i :: 0 <= i < |chunks| ==> IsUtf8(chunks[i]))
       <==> IsUtf8(chunks[0]) && (forall i :: 0 <= i < |chunks[1..]| ==> IsUtf8(chunks[1..][i]))
  {
    if IsUtf8(chunks[0]) && (forall i :: 0 <= i < |chunks[1..]| ==> IsUtf8(chunks[1..][i])) {
      forall i | 0 <= i < |chunks| ensures IsUtf8(chunks[i]) {
        if i > 0 {
          assert chunks[1..][i - 1] == chunks[i];
        }
      }
    }
  }

  lemma {:induction false} TextEndsAtBoundary(s: string, b: seq<byte>)
    ensures Boundary(Encoded(s), b)
  {
    if s != "" {
      var rest := Encoded(s[1..]);
      TextEndsAtBoundary(s[1..], b);
      assert Encoded(s) + b == Encode(s[0]) + (rest + b);
      NextOfEncode(s[0], rest + b);
      assert Encoded(s)[|Encode(s[0])|..] == rest;
    }
  }

  lemma WholeCharactersEndAtBoundary(a: seq<byte>, b: seq<byte>)
    requires IsUtf8(a)
    ensures Boundary(a, b)
  {
    var s: string :| Encoded(s) == a;
    TextEndsAtBoundary(s, b);
  }

  /** For two pieces: they read as the whole exactly if neither splits a character. */
  lemma PiecesReadAsWholeIff(a: seq<byte>, b: seq<byte>)
    requires IsUtf8(a + b)
    ensures Lossy(a) + Lossy(b) == Lossy(a + b) <==> IsUtf8(a) && IsUtf8(b)
  {
    var chunks := [a, b];
    assert chunks[1..] == [b] && [b][1..] == [];
    assert Whole([b]) == b + [] && b + [] == b;
    assert LossyEach([b]) == Lossy(b) by {
      assert LossyEach([]) == "" && LossyEach([b]) == Lossy(b) + LossyEach([b][1..]);
      assert Lossy(b) + "" == Lossy(b);
    }
    ChunksAreFaithfulIff(chunks);
    assert chunks[0] == a && chunks[1] == b;
  }

  /** The euro sign, cut in two. */
  lemma SplitCharacterIsLost()
    ensures var a, b: seq<byte> := [0xE2, 0x82], [0xAC];
            IsUtf8(a + b) && !IsUtf8(a) && !IsUtf8(b) && Lossy(a) + Lossy(b) != Lossy(a + b)
  {
    var a, b: seq<byte> := [0xE2, 0x82], [0xAC];
    var euro := "\U{20AC}";
    assert Encode(euro[0]) == a + b;
    assert euro[1..] == "";
    assert Encoded(euro) == a + b;
    LossyOfEncoded(euro);
    assert a[2..] == [] && b[1..] == [];
    assert Lossy(a) == [REPLACEMENT] && Lossy(b) == [REPLACEMENT];
    assert Encode(REPLACEMENT) == [0xEF, 0xBF, 0xBD];
    assert Encoded(Lossy(a)) == [0xEF, 0xBF, 0xBD] + Encoded(Lossy(a)[1..]);
    assert Encoded(Lossy(b)) == [0xEF, 0xBF, 0xBD] + Encoded(Lossy(b)[1..]);
    LossyIsFaithfulIff(a);
    LossyIsFaithfulIff(b);
  }

  // ---- what is read of broken bytes ----

  /** `p` begins the encoding of a character but is not all of it. */
  ghost predicate Begins(p: seq<byte>) { exists c: char :: p < Encode(c) }

  /** The bytes an encoding can have: which may come first, second and after. */
  lemma EncodedForm(c: char)
    requires |Encode(c)| > 1
    ensures 0xC2 <= Encode(c)[0] <= 0xF4 && MayFollow(Encode(c)[0], Encode(c)[1])
    ensures forall i :: 2 <= i < |Encode(c)| ==> Continues(Encode(c)[i])
  {
    var n := c as int;
    if n >= 0x1_0000 {
      assert n / 262144 == n / 4096 / 64;
    } else if n >= 0x800 {
      assert n / 4096 == n / 64 / 64;
    }
  }

  lemma TwoEncode(a: byte, b: byte) returns (c: char)
    requires 0xC2 <= a <= 0xDF && MayFollow(a, b)
    ensures Encode(c) == [a, b]
  {
    c := (Bits(a, 0xC0) * 64 + Bits(b, 0x80)) as char;
  }

  lemma ThreeEncode(a: byte, b: byte, d: byte) returns (c: char)
    requires 0xE0 <= a <= 0xEF && MayFollow(a, b) && Continues(d)
    ensures Encode(c) == [a, b, d]
  {
    var n := Bits(a, 0xE0) * 4096 + Bits(b, 0x80) * 64 + Bits(d, 0x80);
    assert n / 64 == Bits(a, 0xE0) * 64 + Bits(b, 0x80) && n / 4096 == Bits(a, 0xE0);
    c := n as char;
  }

  lemma FourEncode(a: byte, b: byte, d: byte, e: byte) returns (c: char)
    requires 0xF0 <= a <= 0xF4 && MayFollow(a, b) && Continues(d) && Continues(e)
    ensures Encode(c) == [a, b, d, e]
  {
    var n := Bits(a, 0xF0) * 262144 + Bits(b, 0x80) * 4096 + Bits(d, 0x80) * 64 + Bits(e, 0x80);
    assert n / 64 == Bits(a, 0xF0) * 4096 + Bits(b, 0x80) * 64 + Bits(d, 0x80);
    assert n / 4096 == Bits(a, 0xF0) * 64 + Bits(b, 0x80) && n / 262144 == Bits(a, 0xF0);
    c := n as char;
  }

  /** How many bytes a first byte asks for; 0 for one that begins no character. */
  function Asked(b: byte): nat {
    if b < 0x80 then 1 else if b < 0xC2 || b > 0xF4 then 0 else if b <= 0xDF then 2 else if b <= 0xEF then 3 else 4
  }

  predicate GoodUpTo(s: seq<byte>, k: nat)
    requires s != []
  {
    && k <= |s| && k <= Asked(s[0])
    && (k >= 2 ==> MayFollow(s[0], s[1]))
    && forall i :: 2 <= i < k ==> Continues(s[i])
  }

  lemma GoodIsWhole(s: seq<byte>)
    requires s != [] && Asked(s[0]) > 0 && GoodUpTo(s, Asked(s[0]))
    ensures exists c: char :: Encode(c) <= s
  {
    hide Encode, MayFollow;
    var c: char;
    if s[0] < 0x80 {
      c := s[0] as char;
      OneEncode(s[0]);
    } else if s[0] <= 0xDF {
      c := TwoEncode(s[0], s[1]);
    } else if s[0] <= 0xEF {
      c := ThreeEncode(s[0], s[1], s[2]);
    } else {
      c := FourEncode(s[0], s[1], s[2], s[3]);
    }
    assert Encode(c) <= s;
  }

  lemma OneEncode(a: byte)
    requires a < 0x80
    ensures Encode(a as char) == [a]
  {
  }

  /** A good piece that is shorter than its first byte asks for begins a character. */
  lemma GoodBegins(s: seq<byte>, k: nat)
    requires s != [] && 2 <= k < Asked(s[0]) && GoodUpTo(s, k)
    ensures Begins(s[..k])
  {
    hide Encode, MayFollow;
    var d := if k == 3 then s[2] else 0x80;
    var c: char;
    if s[0] <= 0xEF {
      c := ThreeEncode(s[0], s[1], d);
    } else {
      c := FourEncode(s[0], s[1], d, 0x80);
    }
    assert s[..k] < Encode(c);
  }

  lemma BegunIsGood(s: seq<byte>, k: nat)
    requires s != [] && 2 <= k <= |s| && Begins(s[..k])
    ensures GoodUpTo(s, k)
  {
    var c: char :| s[..k] < Encode(c);
    EncodedForm(c);
    var e := Encode(c);
    assert s[0] == s[..k][0] == e[0] && s[1] == s[..k][1] == e[1];
    forall i | 2 <= i < k ensures Continues(s[i]) {
      assert s[i] == s[..k][i] == e[i];
    }
    AskedIsLength(c);
  }

  lemma AskedIsLength(c: char)
    ensures Asked(Encode(c)[0]) == |Encode(c)|
  {
    if |Encode(c)| > 1 {
      EncodedForm(c);
    }
  }

  /** Bytes that begin with no encoded character read as one replacement character for the
      longest piece that begins one, and for one byte if there is none. */
  lemma BrokenReads(s: seq<byte>)
    requires s != [] && forall c: char :: !(Encode(c) <= s)
    ensures Next(s).c == REPLACEMENT
    ensures Next(s).length > 1 ==> Begins(s[..Next(s).length])
    ensures forall k :: Next(s).length < k <= |s| ==> !Begins(s[..k])
  {
    var n := Next(s).length;
    NotWhole(s);
    if n > 1 {
      GoodBegins(s, n);
    }
    forall k | n < k <= |s| ensures !Begins(s[..k]) {
      if Begins(s[..k]) {
        BegunIsGood(s, k);
      }
    }
  }

  /** Without a whole character the reading stops where the bytes stop being good. */
  lemma NotWhole(s: seq<byte>)
    requires s != [] && forall c: char :: !(Encode(c) <= s)
    ensures Next(s).c == REPLACEMENT
    ensures Next(s).length > 1 ==> Next(s).length < Asked(s[0]) && GoodUpTo(s, Next(s).length)
    ensures forall k :: Next(s).length < k && k >= 2 ==> !GoodUpTo(s, k)
  {
    if Asked(s[0]) > 0 && GoodUpTo(s, Asked(s[0])) {
      GoodIsWhole(s);
    }
  }
}
