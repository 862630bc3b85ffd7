/**
 * Decoding the escapes of a character or string literal's body, once as the
 * parser's primary rule writes it (six whole-string replacement passes) and once
 * as a single left-to-right pass, which the rest of the model uses.
 */
module Escapes {

  /** The character an escape `\x` stands for, for the seven escape codes the lexer accepts. */
  function EscapedChar(x: char): (r: char)
    requires x in "bnrt'\"\\"
  {
    match x
    case 'b' => '\U{8}'
    case 'n' => '\n'
    case 'r' => '\r'
    case 't' => '\t'
    case _ => x
  }

  /** `s.replace(target, replacement)`: every non-overlapping occurrence, left to right. */
  function ReplaceAll(s: string, target: string, replacement: string): (r: string)
    requires |target| > 0
    decreases |s|
  {
    if |s| < |target| then s
    else if s[..|target|] == target then replacement + ReplaceAll(s[|target|..], target, replacement)
    else [s[0]] + ReplaceAll(s[1..], target, replacement)
  }

  /** The six passes of the primary rule, in their order; `\'` is not among them. */
  function AsWrittenDecode(s: string): string {
    var s1 := ReplaceAll(s, "\\n", "\n");
    var s2 := ReplaceAll(s1, "\\t", "\t");
    var s3 := ReplaceAll(s2, "\\r", "\r");
    var s4 := ReplaceAll(s3, "\\b", "\U{8}");
    var s5 := ReplaceAll(s4, "\\\"", "\"");
    ReplaceAll(s5, "\\\\", "\\")
  }

  /** One pass: each backslash followed by an escape code becomes the escaped character. */
  function DecodeEscapes(s: string): (r: string)
    ensures |r| <= |s|
    decreases |s|
  {
    if |s| == 0 then []
    else if |s| >= 2 && s[0] == '\\' && s[1] in "bnrt'\"\\" then [EscapedChar(s[1])] + DecodeEscapes(s[2..])
    else [s[0]] + DecodeEscapes(s[1..])
  }

  /** The escape the lexer would accept for a character, or the character itself. */
  function EscapeChar(c: char): (r: string)
    ensures 1 <= |r| <= 2
  {
    match c
    case '\U{8}' => "\\b"
    case '\n' => "\\n"
    case '\r' => "\\r"
    case '\t' => "\\t"
    case '\'' => "\\'"
    case '"' => "\\\""
    case '\\' => "\\\\"
    case _ => [c]
  }

  /** Escaping every character that needs it, the inverse partner of DecodeEscapes. */
  function Escape(s: string): (r: string)
    ensures |s| <= |r| <= 2 * |s|
  {
    if |s| == 0 then [] else EscapeChar(s[0]) + Escape(s[1..])
  }

  /** Decoding undoes escaping, for every string. */
  lemma {:induction false} DecodeEscapeRoundTrip(s: string)
    ensures DecodeEscapes(Escape(s)) == s
    decreases |s|
  {
    if |s| > 0 {
      assert Escape(s) == EscapeChar(s[0]) + Escape(s[1..]);
      DecodeEscapedChar(s[0], Escape(s[1..]));
      DecodeEscapeRoundTrip(s[1..]);
      assert [s[0]] + s[1..] == s;
    }
  }

  /** Decoding reads one escaped character back and goes on after it. */
  lemma DecodeEscapedChar(c: char, rest: string)
    ensures DecodeEscapes(EscapeChar(c) + rest) == [c] + DecodeEscapes(rest)
  {
    var e := EscapeChar(c);
    if |e| == 2 {
      assert (e + rest)[2..] == rest;
    } else {
      assert (e + rest)[1..] == rest;
    }
  }

  /** The body of a character literal the lexer accepts decodes to exactly one character. */
  lemma CharacterBodyDecodes(body: string)
    requires (|body| == 1 && body[0] != '\\') || (|body| == 2 && body[0] == '\\' && body[1] in "bnrt'\"\\")
    ensures |DecodeEscapes(body)| == 1
    ensures |body| == 1 ==> DecodeEscapes(body) == body
    ensures |body| == 2 ==> DecodeEscapes(body) == [EscapedChar(body[1])]
  {
    if |body| == 2 {
      assert DecodeEscapes(body) == [EscapedChar(body[1])] + DecodeEscapes(body[2..]);
    } else {
      assert DecodeEscapes(body) == [body[0]] + DecodeEscapes(body[1..]);
    }
  }

  /** As written, the escaped single quote of `'\''` is left as a backslash and a quote. */
  lemma AsWrittenKeepsQuoteEscape()
    ensures AsWrittenDecode("\\'") == "\\'"
    ensures DecodeEscapes("\\'") == "'"
  {
    var s := "\\'";
    assert DecodeEscapes(s) == [EscapedChar('\'')] + DecodeEscapes([]);
    ReplaceMisses(s, "\\n", "\n");
    ReplaceMisses(s, "\\t", "\t");
    ReplaceMisses(s, "\\r", "\r");
    ReplaceMisses(s, "\\b", "\U{8}");
    ReplaceMisses(s, "\\\"", "\"");
    ReplaceMisses(s, "\\\\", "\\");
  }

  /** As written, an escaped backslash before `n` turns into a backslash and a line feed. */
  lemma AsWrittenSplitsEscapedBackslash()
    ensures AsWrittenDecode("\\\\n") == "\\\n"
    ensures DecodeEscapes("\\\\n") == "\\n"
  {
    var s := "\\\\n";
    var s1 := "\\\n";
    assert s[..2] != "\\n" && s[1..][..2] == "\\n";
    assert ReplaceAll(s[1..], "\\n", "\n") == "\n" + ReplaceAll(s[3..], "\\n", "\n");
    assert ReplaceAll(s, "\\n", "\n") == s1;
    ReplaceMisses(s1, "\\t", "\t");
    ReplaceMisses(s1, "\\r", "\r");
    ReplaceMisses(s1, "\\b", "\U{8}");
    ReplaceMisses(s1, "\\\"", "\"");
    ReplaceMisses(s1, "\\\\", "\\");
    assert DecodeEscapes(s) == [EscapedChar('\\')] + DecodeEscapes(s[2..]);
    assert DecodeEscapes(s[2..]) == ['n'] + DecodeEscapes([]);
  }

  /** A two-character string other than the target is left alone by a two-character replacement. */
  lemma ReplaceMisses(s: string, target: string, replacement: string)
    requires |s| == 2 && |target| == 2 && s != target
    ensures ReplaceAll(s, target, replacement) == s
  {
    assert s[..2] == s;
    assert ReplaceAll(s, target, replacement) == [s[0]] + ReplaceAll(s[1..], target, replacement);
    assert ReplaceAll(s[1..], target, replacement) == s[1..];
  }
}
