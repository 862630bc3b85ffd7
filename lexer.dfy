/**
 * The lexer as Lexer.java writes it: a character cursor whose index and length
 * move one character at a time, peek/match over single-character patterns, one
 * method per token kind and the lex() loop appending to a token list. Each method
 * is proved to compute the corresponding function of LexerSpec.
 */
module Lexer {
  import opened Common
  import opened Tokens
  import opened LexerSpec

  /** The input, the current offset, and how many characters the pending token holds. */
  class CharStream {
    const input: string
    var index: nat
    var length: nat

    ghost predicate Valid()
      reads this
    {
      length <= index <= |input|
    }

    constructor (input: string)
      ensures this.input == input && index == 0 && length == 0
    {
      this.input := input;
      index := 0;
      length := 0;
    }

    predicate Has(offset: nat)
      reads this
    {
      index + offset < |input|
    }

    function Get(offset: nat): char
      reads this
      requires Has(offset)
    {
      input[index + offset]
    }

    /** One more character in the pending token. */
    method Advance()
      modifies this
      ensures index == old(index) + 1 && length == old(length) + 1
    {
      index := index + 1;
      length := length + 1;
    }

    /** Drop the pending characters. */
    method Skip()
      modifies this
      ensures index == old(index) && length == 0
    {
      length := 0;
    }

    /** The pending characters as a token of the given type, starting where they start. */
    method Emit(kind: TokenType) returns (t: Token)
      requires Valid()
      modifies this
      ensures Valid()
      ensures t == Token(kind, input[old(index) - old(length)..old(index)], old(index) - old(length))
      ensures index == old(index) && length == 0
    {
      var start := index - length;
      Skip();
      t := Token(kind, input[start..index], start);
    }
  }

  class Lexer {
    const chars: CharStream
    var tokens: seq<Token>

    ghost predicate Valid()
      reads this, chars
    {
      chars.Valid()
    }

    constructor (input: string)
      ensures Valid() && fresh(chars)
      ensures chars.input == input && chars.index == 0 && chars.length == 0 && tokens == []
    {
      chars := new CharStream(input);
      tokens := [];
    }

    /** peek(ps...): the next |ps| characters exist and match ps, one pattern each. */
    method Peek(ps: seq<Pattern>) returns (b: bool)
      requires Valid()
      ensures b == PeekAt(chars.input, chars.index, ps)
    {
      PeekAtEach(chars.input, chars.index, ps);
      for i := 0 to |ps|
        invariant chars.index + i <= |chars.input|
        invariant forall k :: 0 <= k < i ==> Matches(ps[k], chars.input[chars.index + k])
      {
        if !chars.Has(i) || !Matches(ps[i], chars.Get(i)) {
          return false;
        }
      }
      return true;
    }

    /** match(ps...): peek, and on success advance over the |ps| matched characters. */
    method Match(ps: seq<Pattern>) returns (b: bool)
      requires Valid()
      modifies chars
      ensures Valid()
      ensures b == PeekAt(chars.input, old(chars.index), ps)
      ensures chars.index == old(chars.index) + (if b then |ps| else 0)
      ensures chars.length == old(chars.length) + (if b then |ps| else 0)
    {
      b := Peek(ps);
      if b {
        PeekAtEach(chars.input, chars.index, ps);
        for i := 0 to |ps|
          invariant chars.index == old(chars.index) + i
          invariant chars.length == old(chars.length) + i
        {
          chars.Advance();
        }
      }
    }

    /** `while (match(p)) {}`. */
    method MatchRun(p: Pattern)
      requires Valid()
      modifies chars
      ensures Valid()
      ensures chars.index == RunEnd(chars.input, old(chars.index), p)
      ensures chars.length == old(chars.length) + (chars.index - old(chars.index))
    {
      while true
        invariant Valid()
        invariant old(chars.index) <= chars.index
        invariant chars.length == old(chars.length) + (chars.index - old(chars.index))
        invariant RunEnd(chars.input, chars.index, p) == RunEnd(chars.input, old(chars.index), p)
        decreases |chars.input| - chars.index
      {
        var more := Match([p]);
        if !more {
          break;
        }
      }
    }

    /** lexEscape: step over one whitespace character without keeping it. */
    method LexEscape()
      requires Valid() && chars.index < |chars.input|
      modifies chars
      ensures Valid()
      ensures chars.index == old(chars.index) + 1 && chars.length == 0
    {
      chars.Advance();
      chars.Skip();
    }

    method LexIdentifier() returns (t: Token)
      requires Valid()
      modifies chars
      ensures Valid()
      ensures var start := old(chars.index) - old(chars.length);
        var e := ScanIdentifier(chars.input, old(chars.index));
        t == Token(Identifier, chars.input[start..e], start) && chars.index == e && chars.length == 0
    {
      var _ := Match([IdentStart]);
      MatchRun(IdentPart);
      t := chars.Emit(Identifier);
    }

    method LexNumber() returns (r: Result<Token, nat>)
      requires Valid()
      modifies chars
      ensures Valid()
      ensures var sc := ScanNumber(chars.input, old(chars.index));
        && r == TokenOf(chars.input, old(chars.index) - old(chars.length), sc)
        && chars.index == Reached(sc) && (r.Ok? ==> chars.length == 0)
    {
      ghost var start := chars.index - chars.length;
      var _ := Match([Sign]);
      ghost var j := chars.index;
      assert j == Skip(chars.input, old(chars.index), Sign);
      assert chars.index - chars.length == start;
      var zero := Peek([Exactly('0')]);
      if zero {
        var _ := Match([Exactly('0')]);
        assert ScanNumber(chars.input, old(chars.index)) == Ok(ScanFraction(chars.input, chars.index));
        r := LexFraction();
      } else {
        var digit := Peek([Digit]);
        if digit {
          MatchRun(Digit);
          assert ScanNumber(chars.input, old(chars.index)) == Ok(ScanFraction(chars.input, chars.index));
          r := LexFraction();
        } else {
          assert ScanNumber(chars.input, old(chars.index)) == Err(j);
          r := Err(chars.index);
        }
      }
    }

    /**
     * The common tail of both branches of lexNumber: an INTEGER unless '.' and a
     * digit follow, which are then taken with all further digits into a DECIMAL.
     */
    method LexFraction() returns (r: Result<Token, nat>)
      requires Valid()
      modifies chars
      ensures Valid()
      ensures var sc := ScanFraction(chars.input, old(chars.index));
        && r == TokenOf(chars.input, old(chars.index) - old(chars.length), Ok(sc))
        && chars.index == sc.end && chars.length == 0
    {
      var fraction := Peek([Exactly('.'), Digit]);
      if !fraction {
        var t := chars.Emit(Integer);
        return Ok(t);
      }
      var _ := Match([Exactly('.')]);
      MatchRun(Digit);
      var t := chars.Emit(Decimal);
      return Ok(t);
    }

    method LexCharacter() returns (r: Result<Token, nat>)
      requires Valid()
      modifies chars
      ensures Valid()
      ensures var sc := ScanCharacter(chars.input, old(chars.index));
        && r == TokenOf(chars.input, old(chars.index) - old(chars.length), sc)
        && chars.index == Reached(sc) && (r.Ok? ==> chars.length == 0)
    {
      var _ := Match([Exactly('\'')]);
      r := LexCharacterBody();
    }

    /** lexCharacter after its opening quote. */
    method LexCharacterBody() returns (r: Result<Token, nat>)
      requires Valid()
      modifies chars
      ensures Valid()
      ensures var sc := ScanCharacterBody(chars.input, old(chars.index));
        && r == TokenOf(chars.input, old(chars.index) - old(chars.length), sc)
        && chars.index == Reached(sc) && (r.Ok? ==> chars.length == 0)
    {
      ghost var start := chars.index - chars.length;
      var plain := Peek([CharBody]);
      if plain {
        var _ := Match([CharBody]);
        assert chars.index - chars.length == start;
        r := LexClosingQuote();
      } else {
        var escape := Peek([Exactly('\\'), EscapeCode]);
        if escape {
          var _ := Match([Exactly('\\'), EscapeCode]);
          assert chars.index - chars.length == start;
          r := LexClosingQuote();
        } else {
          r := Err(chars.index);
        }
      }
    }

    /** The end of lexCharacter: the closing quote completes the CHARACTER, anything else is an error here. */
    method LexClosingQuote() returns (r: Result<Token, nat>)
      requires Valid()
      modifies chars
      ensures Valid()
      ensures var sc := ScanClosingQuote(chars.input, old(chars.index));
        && r == TokenOf(chars.input, old(chars.index) - old(chars.length), sc)
        && chars.index == Reached(sc) && (r.Ok? ==> chars.length == 0)
    {
      var close := Peek([Exactly('\'')]);
      if close {
        var _ := Match([Exactly('\'')]);
        var t := chars.Emit(Character);
        return Ok(t);
      }
      return Err(chars.index);
    }

    method LexString() returns (r: Result<Token, nat>)
      requires Valid()
      modifies chars
      ensures Valid()
      ensures var sc := ScanString(chars.input, old(chars.index));
        && r == TokenOf(chars.input, old(chars.index) - old(chars.length), sc)
        && chars.index == Reached(sc) && (r.Ok? ==> chars.length == 0)
    {
      ghost var start, i := chars.index - chars.length, chars.index;
      var _ := Match([Exactly('"')]);
      assert chars.index == Skip(chars.input, i, Exactly('"'));
      MatchStringBody();
      ghost var k := chars.index;
      assert ScanString(chars.input, i) == if PeekAt(chars.input, k, [Exactly('"')]) then Ok(Scan(String, k + 1)) else Err(k);
      var close := Peek([Exactly('"')]);
      if close {
        var _ := Match([Exactly('"')]);
        var t := chars.Emit(String);
        return Ok(t);
      }
      return Err(chars.index);
    }

    /** lexString's `while (match([^"\n\r\\]) || match("\\", [bnrt'"\\])) {}`. */
    method MatchStringBody()
      requires Valid()
      modifies chars
      ensures Valid()
      ensures chars.index == StringBodyEnd(chars.input, old(chars.index))
      ensures chars.length == old(chars.length) + (chars.index - old(chars.index))
    {
      while true
        invariant Valid()
        invariant old(chars.index) <= chars.index
        invariant chars.length == old(chars.length) + (chars.index - old(chars.index))
        invariant StringBodyEnd(chars.input, chars.index) == StringBodyEnd(chars.input, old(chars.index))
        decreases |chars.input| - chars.index
      {
        var more := Match([StringBody]);
        if !more {
          more := Match([Exactly('\\'), EscapeCode]);
        }
        if !more {
          break;
        }
      }
    }

    method LexOperator() returns (t: Token)
      requires Valid()
      modifies chars
      ensures Valid()
      ensures var start := old(chars.index) - old(chars.length);
        var e := ScanOperator(chars.input, old(chars.index));
        t == Token(Operator, chars.input[start..e], start) && chars.index == e && chars.length == 0
    {
      var comparison := Peek([CompOp]);
      if comparison {
        var _ := Match([CompOp]);
        var _ := Match([Exactly('=')]);
      } else {
        var _ := Match([AnyChar]);
      }
      t := chars.Emit(Operator);
    }

    /** lexToken: choose the token kind from the next characters, as ScanToken does. */
    method LexToken() returns (r: Result<Token, nat>)
      requires Valid()
      modifies chars
      ensures Valid()
      ensures var sc := ScanToken(chars.input, old(chars.index));
        && r == TokenOf(chars.input, old(chars.index) - old(chars.length), sc)
        && chars.index == Reached(sc) && (r.Ok? ==> chars.length == 0)
    {
      var ident := Peek([IdentStart]);
      if ident {
        var t := LexIdentifier();
        return Ok(t);
      }
      var signed := Peek([Sign, Digit]);
      if signed {
        r := LexNumber();
        return;
      }
      var digit := Peek([Digit]);
      if digit {
        r := LexNumber();
        return;
      }
      var quote := Peek([Exactly('\'')]);
      if quote {
        r := LexCharacter();
        return;
      }
      var dquote := Peek([Exactly('"')]);
      if dquote {
        r := LexString();
        return;
      }
      var op := Peek([CompOp]);
      if !op {
        op := Peek([AnyChar]);
      }
      if op {
        var t := LexOperator();
        return Ok(t);
      }
      return Err(chars.index);
    }

    /** lex(): drop whitespace, lex a token at every other character, until the input ends. */
    method Lex() returns (r: Result<seq<Token>, nat>)
      requires Valid() && chars.length == 0
      modifies this, chars
      ensures Valid()
      ensures r == Prepend(old(tokens), LexFrom(chars.input, old(chars.index)))
      ensures r.Ok? ==> tokens == r.value
    {
      while chars.Has(0)
        invariant Valid() && chars.length == 0
        invariant Prepend(old(tokens), LexFrom(chars.input, old(chars.index)))
               == Prepend(tokens, LexFrom(chars.input, chars.index))
        decreases |chars.input| - chars.index
      {
        var c := chars.Get(0);
        if IsWhitespace(c) {
          LexEscape();
        } else {
          PrependStep(tokens, chars.input, chars.index);
          var t := LexToken();
          match t {
            case Err(p) =>
              return Err(p);
            case Ok(tok) =>
              tokens := tokens + [tok];
          }
        }
      }
      assert tokens + [] == tokens;
      return Ok(tokens);
    }
  }
}
