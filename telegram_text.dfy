/** Text preparation for Telegram messages (internal/telegram/utils.go), on the
    bytes of Go strings: dropping malformed UTF-8, escaping for the Bot API's
    MarkdownV2 mode, and wrapping an error text in a code block. */
module TelegramText {
  import opened Utf8

  /** The bytes of an ASCII text. */
  function Ascii(s: string): (r: seq<byte>)
    requires forall i :: 0 <= i < |s| ==> s[i] < 128 as char
    ensures |r| == |s|
  {
    seq(|s|, i requires 0 <= i < |s| => s[i] as int as byte)
  }

  // ---------------------------------------------------------------- cleanUTF8

  /** The bytes of `s` that belong to well-formed encoded characters, in order: every
      byte at which no well-formed character begins is dropped, one at a time. */
  function Clean(s: seq<byte>): seq<byte>
    decreases |s|
  {
    if s == [] then []
    else if CharLen(s) == 0 then Clean(s[1..])
    else s[..CharLen(s)] + Clean(s[CharLen(s)..])
  }

  /** `cleanUTF8`: a well-formed input as it is, otherwise its cleaned bytes. */
  function CleanUtf8(s: seq<byte>): (r: seq<byte>)
    ensures Valid(r) && |r| <= |s|
  {
    CleanValid(s);
    if Valid(s) then s else Clean(s)
  }

  /** Cleaning always yields well-formed UTF-8, never longer than the input. */
  lemma {:induction false} CleanValid(s: seq<byte>)
    ensures Valid(Clean(s)) && |Clean(s)| <= |s|
    decreases |s|
  {
    if s != [] {
      var n := CharLen(s);
      if n == 0 {
        CleanValid(s[1..]);
      } else {
        CleanValid(s[n..]);
        ValidCons(s[..n], Clean(s[n..]));
      }
    }
  }

  /** Cleaning a text that begins with a character of length `n` keeps that character. */
  lemma CleanStep(s: seq<byte>, n: nat)
    requires n == CharLen(s) > 0
    ensures Clean(s) == s[..n] + Clean(s[n..])
  {
  }

  /** Well-formed bytes are kept in front of whatever follows them. */
  lemma {:induction false} CleanKeepsValidPrefix(a: seq<byte>, b: seq<byte>)
    requires Valid(a)
    ensures Clean(a + b) == a + Clean(b)
    decreases |a|
  {
    if a == [] {
      assert a + b == b;
    } else {
      var n := CharLen(a);
      var head, tail := a[..n], a[n..];
      SliceConcat(a, b, n);
      calc {
        Clean(a + b);
        == { CharLenPrefix(a, b); CleanStep(a + b, n); }
        head + Clean(tail + b);
        == { CleanKeepsValidPrefix(tail, b); }
        head + (tail + Clean(b));
        == { AppendAssoc(head, tail, Clean(b)); }
        a + Clean(b);
      }
    }
  }

  lemma AppendAssoc(x: seq<byte>, y: seq<byte>, z: seq<byte>)
    ensures x + (y + z) == (x + y) + z
  {
  }

  /** Cleaning leaves well-formed input alone, so the early return of `cleanUTF8` does
      not change its result. */
  lemma CleanOfValid(s: seq<byte>)
    requires Valid(s)
    ensures Clean(s) == s
  {
    CleanKeepsValidPrefix(s, []);
    assert s + [] == s;
  }

  /** `cleanUTF8` is the cleaning filter, its result is well formed, and cleaning
      again changes nothing. */
  lemma CleanUtf8Spec(s: seq<byte>)
    ensures CleanUtf8(s) == Clean(s)
    ensures Valid(CleanUtf8(s))
    ensures CleanUtf8(CleanUtf8(s)) == CleanUtf8(s)
  {
    CleanValid(s);
    if Valid(s) {
      CleanOfValid(s);
    }
  }

  /** A correctly encoded U+FFFD is a character like any other: it is kept. */
  lemma ReplacementCharKept(rest: seq<byte>)
    ensures Clean(ReplacementChar + rest) == ReplacementChar + Clean(rest)
  {
    ReplacementCharValid();
    CleanKeepsValidPrefix(ReplacementChar, rest);
  }

  /** A byte that begins no well-formed character is dropped. */
  lemma StrayByteDropped(b: byte, rest: seq<byte>)
    requires CharLen([b] + rest) == 0
    ensures Clean([b] + rest) == Clean(rest)
  {
    assert ([b] + rest)[1..] == rest;
  }

  // --------------------------------------------------------- escapeMarkdownV2

  const Backslash: byte := 0x5C

  /** The eighteen characters MarkdownV2 reserves: _ * [ ] ( ) ~ ` > # + - = | { } . ! */
  const Specials: set<byte> := {
    0x5F, 0x2A, 0x5B, 0x5D, 0x28, 0x29, 0x7E, 0x60, 0x3E,
    0x23, 0x2B, 0x2D, 0x3D, 0x7C, 0x7B, 0x7D, 0x2E, 0x21
  }

  /** The replacement of one byte: a backslash before a reserved character. */
  function EscapeByte(b: byte): seq<byte>
  {
    if b in Specials then [Backslash, b] else [b]
  }

  /** `escapeMarkdownV2`: every reserved character preceded by a backslash; all other
      bytes, the backslash included, unchanged. */
  function Escape(s: seq<byte>): (r: seq<byte>)
    ensures |s| <= |r| <= 2 * |s|
  {
    if s == [] then [] else EscapeByte(s[0]) + Escape(s[1..])
  }

  /** Number of reserved characters in `s`. */
  function SpecialCount(s: seq<byte>): nat
  {
    if s == [] then 0 else (if s[0] in Specials then 1 else 0) + SpecialCount(s[1..])
  }

  /** Removes the backslash in front of each reserved character: the inverse of `Escape`. */
  function Unescape(t: seq<byte>): seq<byte>
  {
    if t == [] then []
    else if |t| >= 2 && t[0] == Backslash && t[1] in Specials then [t[1]] + Unescape(t[2..])
    else [t[0]] + Unescape(t[1..])
  }

  /** Escaping distributes over concatenation. */
  lemma {:induction false} EscapeAppend(a: seq<byte>, b: seq<byte>)
    ensures Escape(a + b) == Escape(a) + Escape(b)
  {
    if a == [] {
      assert a + b == b;
    } else {
      assert (a + b)[1..] == a[1..] + b;
      EscapeAppend(a[1..], b);
    }
  }

  /** The escaped text is one byte longer per reserved character. */
  lemma {:induction false} EscapeLength(s: seq<byte>)
    ensures |Escape(s)| == |s| + SpecialCount(s)
  {
    if s != [] {
      EscapeLength(s[1..]);
    }
  }

  /** An escaped text never begins with a reserved character: there is a backslash
      in front of it. */
  lemma EscapeHead(s: seq<byte>)
    ensures Escape(s) != [] ==> Escape(s)[0] !in Specials
  {
  }

  /** Unescaping undoes escaping, so no two texts escape alike. */
  lemma {:induction false} UnescapeEscape(s: seq<byte>)
    ensures Unescape(Escape(s)) == s
  {
    if s != [] {
      var rest := Escape(s[1..]);
      UnescapeEscape(s[1..]);
      EscapeHead(s[1..]);
      if s[0] in Specials {
        assert Escape(s) == [Backslash, s[0]] + rest;
        assert Escape(s)[2..] == rest;
      } else {
        assert Escape(s) == [s[0]] + rest;
        assert Escape(s)[1..] == rest;
      }
    }
  }

  /** Escaping a well-formed text keeps it well formed: only ASCII bytes are touched. */
  lemma {:induction false} EscapeValid(s: seq<byte>)
    requires Valid(s)
    ensures Valid(Escape(s))
    decreases |s|
  {
    if s != [] {
      var n := CharLen(s);
      assert s == s[..n] + s[n..];
      EscapeAppend(s[..n], s[n..]);
      EscapeValid(s[n..]);
      EscapeCharValid(s[..n]);
      ValidAppend(Escape(s[..n]), Escape(s[n..]));
    }
  }

  /** Escaping one encoded character gives well-formed bytes. */
  lemma EscapeCharValid(c: seq<byte>)
    requires CharLen(c) == |c| > 0
    ensures Valid(Escape(c))
  {
    if |c| == 1 {
      EscapeAsciiValid(c);
    } else {
      MultiByteHigh(c);
      EscapeNonAscii(c);
      assert c[|c|..] == [];
    }
  }

  /** An ASCII character escapes to one or two ASCII characters. */
  lemma EscapeAsciiValid(c: seq<byte>)
    requires |c| == 1 && c[0] <= 0x7F
    ensures Valid(Escape(c))
  {
    assert c[1..] == [];
    var e := EscapeByte(c[0]);
    assert Escape(c) == e;
    if c[0] in Specials {
      assert e[1..] == [c[0]] && [c[0]][1..] == [];
    } else {
      assert e[1..] == [];
    }
  }

  /** Every byte of an encoded character longer than one byte lies outside ASCII. */
  lemma MultiByteHigh(c: seq<byte>)
    requires CharLen(c) == |c| > 1
    ensures forall i :: 0 <= i < |c| ==> c[i] >= 0x80
  {
  }

  /** Bytes outside ASCII are never escaped. */
  lemma {:induction false} EscapeNonAscii(s: seq<byte>)
    requires forall i :: 0 <= i < |s| ==> s[i] >= 0x80
    ensures Escape(s) == s
  {
    if s != [] {
      EscapeNonAscii(s[1..]);
    }
  }

  // ------------------------------------------------------- formatErrorMessage

  /** The opening of the code block, "\n\n```Error\n". */
  const ErrorOpen: seq<byte> := Ascii("\n\n```Error\n")
  /** The closing of the code block, "\n```". */
  const ErrorClose: seq<byte> := Ascii("\n```")

  /** `formatErrorMessage`: the cleaned, escaped error text inside a code block. */
  function FormatErrorMessage(errText: seq<byte>): (msg: seq<byte>)
    ensures |msg| >= |ErrorOpen| + |ErrorClose| && msg[..|ErrorOpen|] == ErrorOpen
  {
    ErrorOpen + Escape(CleanUtf8(errText)) + ErrorClose
  }

  /** The message is the code block around a well-formed body that unescapes to the
      well-formed part of the error text. */
  lemma FormatErrorMessageShape(errText: seq<byte>)
    ensures var msg := FormatErrorMessage(errText);
            var body := msg[|ErrorOpen|..|msg| - |ErrorClose|];
            && |msg| >= |ErrorOpen| + |ErrorClose|
            && msg[..|ErrorOpen|] == ErrorOpen
            && msg[|msg| - |ErrorClose|..] == ErrorClose
            && Valid(body)
            && Unescape(body) == Clean(errText)
  {
    var body := Escape(CleanUtf8(errText));
    var msg := FormatErrorMessage(errText);
    assert msg == ErrorOpen + body + ErrorClose;
    assert msg[|ErrorOpen|..|msg| - |ErrorClose|] == body;
    CleanUtf8Spec(errText);
    EscapeValid(CleanUtf8(errText));
    UnescapeEscape(CleanUtf8(errText));
  }
}
