# PLC project core in Dafny

This project models the front end of the PLC teaching language, as the Java
classes of `plc.project` implement it, and proves properties of that model.
The language has fields (`LET`), methods (`DEF ... DO ... END`), the statements
`LET`, assignment, `IF`, `FOR`, `WHILE` and `RETURN`, and expressions over
Booleans, arbitrary-precision integers and decimals, characters, strings and
`NIL`. The modelled stages are:

- the **lexer** (`Lexer.java`): characters to tokens, one character of lookahead;
- the **parser** (`Parser.java`): recursive descent from tokens to the syntax tree;
- the **analyzer** (`Analyzer.java`): name resolution and type checking over a scope chain, filling the tree's annotation slots;
- the **interpreter** (`Interpreter.java`): evaluation of expressions, declarations, returns and while loops;
- the **generator** (`Generator.java`): Java source text written from an analyzed tree.

Each stage has two modules. A pure module (`LexerSpec`, `ParserSpec`,
`AnalyzerSpec`, `InterpreterSpec`, `GeneratorSpec`) states what the stage
computes, as functions. An imperative module (`Lexer`, `Parser`, `Analyzer`,
`Interpreter`, `Generator`) holds classes with the source's fields and one
method per visit or rule, with loops where the source loops. Each method is
proved to compute its spec function from the state before the call: the token
list, the position, the scope chain or the text written so far. A facts module
(`ParserFacts`, `AnalyzerFacts`, `InterpreterFacts`, `GeneratorFacts`) proves
what the stage promises about those functions. Shared modules hold the tokens
(`Tokens`), the syntax tree with its annotation slots (`Ast`), the types and the
scope chain (`Environment`), BigInteger and BigDecimal arithmetic and text
(`Numbers`), and the escape codes of character and string literals (`Escapes`).

Where the Java code and the language's design description disagree, the model
follows the code, except for the three bugs listed under "## Findings". For
each of those, a member models the code as written and the corrected half is
proved against the intended behaviour. The rest of the model then uses the
corrected half: `InterpreterSpec.Arithmetic` divides integers with
`BigInteger.divide` (as written, `InterpreterSpec.ArithmeticAsWritten`),
`Escapes.DecodeEscapes` decodes literal bodies in one left-to-right pass (as
written, `Escapes.AsWrittenDecode`), and `GeneratorSpec.LiteralText` re-escapes
String and Character values (as written, `GeneratorSpec.LiteralTextAsWritten`).
Everywhere else the model follows the code, also in these places:

- the analyzer accepts a `WHILE` with an empty body;
- a method's parameters are defined in the frame that encloses the method, not in its body's frame;
- conditions are checked as `requireAssignable(conditionType, Boolean)`, with the arguments in the opposite order from other checks;
- arithmetic checks `requireAssignable(rightType, leftType)`;
- a declaration with a declared type does not check its initializer against that type.

## Model

| member | source | states |
|---|---|---|
| Lexer.CharStream.constructor | src/main/java/plc/project/Lexer.java:217-219 | a new stream is at offset 0 with no pending characters |
| Lexer.CharStream.Advance | src/main/java/plc/project/Lexer.java:229-232 | the offset and the pending length both grow by one |
| Lexer.CharStream.Skip | src/main/java/plc/project/Lexer.java:234-236 | the pending characters are dropped and the offset stays |
| Lexer.CharStream.Emit | src/main/java/plc/project/Lexer.java:238-242 | the token has the given type, the pending slice of the input as its text and that slice's start as its index; nothing is pending afterwards |
| Lexer.Lexer.constructor | src/main/java/plc/project/Lexer.java:26-28 | the lexer starts at offset 0 of its input with no tokens |
| Lexer.Lexer.Peek | src/main/java/plc/project/Lexer.java:176-185 | true exactly when enough characters remain and each matches its pattern (PeekAt) |
| Lexer.Lexer.Match | src/main/java/plc/project/Lexer.java:192-201 | the same answer as Peek; on success the offset and the pending length move past the matched characters, otherwise nothing moves |
| Lexer.Lexer.MatchRun | src/main/java/plc/project/Lexer.java:91 | `while (match(p)) {}` stops at RunEnd, the first character that does not match, and keeps every character it passed |
| Lexer.Lexer.LexEscape | src/main/java/plc/project/Lexer.java:153-157 | one whitespace character is passed over and not kept |
| Lexer.Lexer.LexIdentifier | src/main/java/plc/project/Lexer.java:89-94 | an IDENTIFIER ending where ScanIdentifier ends |
| Lexer.Lexer.LexNumber | src/main/java/plc/project/Lexer.java:96-120 | the INTEGER or DECIMAL token, or the error offset, that ScanNumber gives |
| Lexer.Lexer.LexFraction | src/main/java/plc/project/Lexer.java:101-116 | after the integer digits: INTEGER unless '.' and a digit follow, else DECIMAL over all further digits (ScanFraction) |
| Lexer.Lexer.LexCharacter | src/main/java/plc/project/Lexer.java:122-140 | the CHARACTER token or the error offset that ScanCharacter gives |
| Lexer.Lexer.LexCharacterBody | src/main/java/plc/project/Lexer.java:124-138 | one plain character or one escape, then the closing quote (ScanCharacterBody) |
| Lexer.Lexer.LexClosingQuote | src/main/java/plc/project/Lexer.java:126-138 | a closing quote completes the CHARACTER; anything else is an error at that offset |
| Lexer.Lexer.LexString | src/main/java/plc/project/Lexer.java:142-151 | the STRING token or the error offset that ScanString gives |
| Lexer.Lexer.MatchStringBody | src/main/java/plc/project/Lexer.java:144 | the body loop stops at StringBodyEnd and keeps every character it passed |
| Lexer.Lexer.LexOperator | src/main/java/plc/project/Lexer.java:159-169 | a comparison character takes one following '=', anything else is one character (ScanOperator) |
| Lexer.Lexer.LexToken | src/main/java/plc/project/Lexer.java:60-87 | the dispatch in the source's order, giving the token or the error offset that ScanToken gives |
| Lexer.Lexer.Lex | src/main/java/plc/project/Lexer.java:34-50 | the tokens collected so far followed by LexFrom from the current offset; on success the token list is the result |
| LexerSpec.PeekAtEach | src/main/java/plc/project/Lexer.java:176-185 | peek holds exactly when every one of the next characters exists and matches its own pattern |
| LexerSpec.RunEnd | src/main/java/plc/project/Lexer.java:91 | a run ends inside the input, at the first character the pattern refuses |
| LexerSpec.RunEndMatches | src/main/java/plc/project/Lexer.java:91 | every character of a run matches the pattern |
| LexerSpec.ScanFraction | src/main/java/plc/project/Lexer.java:101-116 | a number's end is at or after its integer digits, and its kind is INTEGER or DECIMAL |
| LexerSpec.ScanUnsigned | src/main/java/plc/project/Lexer.java:98-118 | a number after its sign is INTEGER or DECIMAL of at least one character, or an error right there |
| LexerSpec.ScanNumber | src/main/java/plc/project/Lexer.java:96-120 | a number token is non-empty and ends inside the input; an error lies between start and end of input |
| LexerSpec.ScanCharacter | src/main/java/plc/project/Lexer.java:122-140 | a CHARACTER token is non-empty and inside the input; an error lies within the input |
| LexerSpec.ScanClosingQuote | src/main/java/plc/project/Lexer.java:126-137 | the token is complete exactly when a single quote stands there, and ends after it; otherwise the error is there |
| LexerSpec.ScanString | src/main/java/plc/project/Lexer.java:142-151 | a STRING token is non-empty and inside the input; an error lies within the input |
| LexerSpec.ScanToken | src/main/java/plc/project/Lexer.java:60-87 | every token found is non-empty and inside the input; every error offset is inside it |
| LexerSpec.PrependStep | src/main/java/plc/project/Lexer.java:44-46 | one iteration of lex: a failed token stops lexing with its offset, a found token joins the list and lexing goes on after it |
| LexerSpec.LexFromTokens | src/main/java/plc/project/Lexer.java:34-50 | every token of a successful lex is the non-empty slice of the input at its own index |
| LexerSpec.LexFromOrdered | src/main/java/plc/project/Lexer.java:34-50 | the tokens come in increasing index order and never overlap |
| LexerSpec.LexFromGaps | src/main/java/plc/project/Lexer.java:35-43 | every character no token covers is one of the five whitespace characters |
| LexerSpec.LexFromErrorBound | src/main/java/plc/project/Lexer.java:85 | an error offset lies inside the input |
| LexerSpec.LexLayout | src/main/java/plc/project/Lexer.java:34-50 | a successful lex is slices of the input, in order, separated only by whitespace; a failure names an offset within the input |
| LexerSpec.DotAt | src/main/java/plc/project/Lexer.java:104 | the first '.' of a number's text is where the integer digits end |
| LexerSpec.UnsignedNumber | src/main/java/plc/project/Lexer.java:98-117 | at a digit a number is always found, and its text is integer digits optionally followed by '.' and digits |
| LexerSpec.ZeroNumber | src/main/java/plc/project/Lexer.java:98-107 | after a leading 0: INTEGER "0", or "0." and the following digits as a DECIMAL |
| LexerSpec.FractionNumber | src/main/java/plc/project/Lexer.java:109-116 | after digits not starting with 0: INTEGER, or '.' and the following digits as a DECIMAL |
| LexerSpec.NumberToken | src/main/java/plc/project/Lexer.java:66-72 | at a digit, or a sign right before a digit, the token is an INTEGER or DECIMAL of the shape the source admits, ending where its digits end |
| LexerSpec.LeadingZero | src/main/java/plc/project/Lexer.java:98-102 | a leading 0 not followed by '.' and a digit is a one-character INTEGER |
| LexerSpec.NumberTextParses | src/main/java/plc/project/Lexer.java:96-120 | every INTEGER and DECIMAL text the lexer produces is accepted by the big-number parsers the parser calls |
| LexerSpec.CharacterToken | src/main/java/plc/project/Lexer.java:122-140 | at a single quote: a CHARACTER exactly when a plain character or an escape and a closing quote follow; otherwise the error is where that shape breaks |
| LexerSpec.StringBodyEndFacts | src/main/java/plc/project/Lexer.java:144 | the body loop passes a valid body and stops at a character that starts neither a plain character nor an escape |
| LexerSpec.StringTokenFound | src/main/java/plc/project/Lexer.java:142-148 | a STRING is a quote, a valid body and a closing quote |
| LexerSpec.StringTokenError | src/main/java/plc/project/Lexer.java:142-151 | a string error is right after a valid body, at the input's end, a line break or a backslash that starts no escape |
| LexerSpec.ComparisonOperator | src/main/java/plc/project/Lexer.java:159-163 | `<`, `>`, `!` and `=` take one following `=` into a two-character OPERATOR |
| LexerSpec.OtherOperator | src/main/java/plc/project/Lexer.java:82-85 | any other character is a one-character OPERATOR unless it is a line terminator, which is an error at its offset |
| LexerSpec.IdentifierToken | src/main/java/plc/project/Lexer.java:89-94 | an identifier starts in the range A..z, runs over [A-Za-z0-9_-] and stops only where that run stops |
| LexerSpec.LexFromToken | src/main/java/plc/project/Lexer.java:45 | a token at a non-whitespace offset is followed by the tokens lexed after it |
| LexerSpec.LexFromEnd | src/main/java/plc/project/Lexer.java:35 | at the end of the input nothing more is lexed |
| LexerSpec.LexFromSpace | src/main/java/plc/project/Lexer.java:38-43 | whitespace is dropped |
| LexerSpec.LexLeadingZeroExample | src/main/java/plc/project/Lexer.java:98-102 | "01" is two INTEGER tokens |
| LexerSpec.LexTrailingDotExample | src/main/java/plc/project/Lexer.java:111-113 | in "1." the '.' is an OPERATOR of its own |
| LexerSpec.LexDashIdentifierExample | src/main/java/plc/project/Lexer.java:91 | "a-b" is one IDENTIFIER |
| LexerSpec.LexBracketIdentifierExample | src/main/java/plc/project/Lexer.java:63 | "[x]" is two IDENTIFIERs, because '[' and ']' lie in the range A..z |
| LexerSpec.LexComparisonExample | src/main/java/plc/project/Lexer.java:60-87 | "x <= -1" is an IDENTIFIER, the OPERATOR "<=" and the INTEGER "-1" |
| LexerSpec.LexStringNewlineExample | src/main/java/plc/project/Lexer.java:144-149 | a line break inside a string literal is an error at the line break |
| Parser.TokenStream.constructor | src/main/java/plc/project/Parser.java:406-408 | a new stream is at the first token |
| Parser.TokenStream.Advance | src/main/java/plc/project/Parser.java:427-429 | the position moves one token on |
| Parser.Parser.constructor | src/main/java/plc/project/Parser.java:27-29 | the parser starts at the first of the given tokens |
| Parser.Parser.Peek | src/main/java/plc/project/Parser.java:363-384 | true exactly when enough tokens remain and each fits its pattern, by type or by literal text (PeekTokens) |
| Parser.Parser.Match | src/main/java/plc/project/Parser.java:390-399 | the same answer as Peek; on success the position moves past the matched tokens, otherwise it stays |
| Parser.Parser.ParseSource | src/main/java/plc/project/Parser.java:34-54 | the source, or the failure, that SourceFrom gives from the current position |
| Parser.Parser.ParseField | src/main/java/plc/project/Parser.java:60-71 | LET and an optional CONST are consumed and the unfinished rule's empty field is returned |
| Parser.Parser.ParseMethod | src/main/java/plc/project/Parser.java:77-89 | DEF is consumed and the unfinished rule's empty method is returned |
| Parser.Parser.ParseStatement | src/main/java/plc/project/Parser.java:96-128 | the statement, the position after it, or the failure that ParserSpec.ParseStatement gives |
| Parser.Parser.ParseExpression | src/main/java/plc/project/Parser.java:178-181 | the expression and position, or the failure, of ParserSpec.ParseExpression |
| Parser.Parser.ParseLevel | src/main/java/plc/project/Parser.java:186-237 | each binary level and the secondary rule give what ParserSpec.ParseLevel gives |
| Parser.Parser.ParseBinary | src/main/java/plc/project/Parser.java:186-237 | the loop of a binary level rewraps the expression so far as the left operand, as ParseLevel/ParseLevelRest state |
| Parser.Parser.MatchOperator | src/main/java/plc/project/Parser.java:186-237 | true exactly when the next token's text is one of the level's operators, and then that token is consumed |
| Parser.Parser.ParseSecondary | src/main/java/plc/project/Parser.java:242-273 | the expression and position, or the failure, of ParserSpec.ParseSecondary |
| Parser.Parser.ParseMember | src/main/java/plc/project/Parser.java:245-269 | after a `.`: an access, or a call when `(` follows the name, with the expression so far as receiver; no identifier is an error at the end of the `.` |
| Parser.Parser.ParseArguments | src/main/java/plc/project/Parser.java:329-340 | `)` alone gives no arguments; otherwise expressions separated by `,` and a closing `)`, as ParserSpec.ParseArguments |
| Parser.Parser.ParsePrimary | src/main/java/plc/project/Parser.java:281-351 | the expression and position, or the failure, of ParserSpec.ParsePrimary |
| Parser.Parser.ParseLiteral | src/main/java/plc/project/Parser.java:282-290 | TRUE, FALSE and NIL become literals and take one token; no literal start leaves the position unchanged |
| Parser.Parser.ParseTokenLiteral | src/main/java/plc/project/Parser.java:291-318 | INTEGER, DECIMAL, CHARACTER and STRING tokens become literals (quotes stripped, escapes decoded) and take one token (corrected; as written: Escapes.AsWrittenDecode) |
| ParserSpec.AtIsPeek | src/main/java/plc/project/Parser.java:363-384 | peeking one pattern is testing the next token |
| ParserSpec.PeekTokensEach | src/main/java/plc/project/Parser.java:363-384 | peek holds exactly when the next tokens exist and each fits its own pattern |
| ParserSpec.LevelOperator | src/main/java/plc/project/Parser.java:186-237 | an operator is found exactly when the next token's text is one of the level's operators, and it is that text |
| ParserSpec.ParseExpression | src/main/java/plc/project/Parser.java:178-181 | a parsed expression consumes at least one token and stays inside the list |
| ParserSpec.ParseLevel | src/main/java/plc/project/Parser.java:186-237 | a parsed level consumes at least one token and stays inside the list |
| ParserSpec.ParseSecondary | src/main/java/plc/project/Parser.java:242-273 | a parsed secondary expression consumes at least one token |
| ParserSpec.ParseMember | src/main/java/plc/project/Parser.java:245-269 | a member suffix consumes at least its name |
| ParserSpec.ParseArguments | src/main/java/plc/project/Parser.java:329-340 | an argument list consumes at least its `)` |
| ParserSpec.ParseLiteral | src/main/java/plc/project/Parser.java:282-318 | a literal branch is taken exactly when the next token starts one, and a literal takes exactly one token |
| ParserSpec.ParseTokenLiteral | src/main/java/plc/project/Parser.java:291-318 | a token literal branch is taken exactly when the next token has a literal type, and takes exactly that token; quoted bodies are decoded by the corrected decoder (corrected; as written: Escapes.AsWrittenDecode) |
| ParserSpec.ParsePrimary | src/main/java/plc/project/Parser.java:281-351 | a primary expression consumes at least one token |
| ParserSpec.ParseStatement | src/main/java/plc/project/Parser.java:96-128 | a parsed statement consumes at least one token |
| ParserSpec.FieldEnd | src/main/java/plc/project/Parser.java:64-67 | the field rule stops inside the list, after LET and an optional CONST |
| ParserFacts.LevelShape | src/main/java/plc/project/Parser.java:186-237 | every tree a level returns respects precedence and left associativity |
| ParserFacts.LevelRestShape | src/main/java/plc/project/Parser.java:188-192 | the level loop keeps precedence and left associativity of the expression built so far |
| ParserFacts.SecondaryNotBinary | src/main/java/plc/project/Parser.java:242-273 | the secondary rule never builds a binary node |
| ParserFacts.SecondaryRestChain | src/main/java/plc/project/Parser.java:244-270 | the secondary loop wraps the expression so far as the receiver of each access or call, and a `.` without a name throws at the end of the `.` |
| ParserFacts.ChainExtends | src/main/java/plc/project/Parser.java:260-263 | a receiver chain over one suffix is a chain over its base and is not binary |
| ParserFacts.LeftAssociativeExample | src/main/java/plc/project/Parser.java:214-223 | `a - b - c` parses as `(a - b) - c` |
| ParserFacts.PrecedenceExample | src/main/java/plc/project/Parser.java:214-237 | `a + b * c` parses as `a + (b * c)` |
| ParserFacts.NameAtom | src/main/java/plc/project/Parser.java:327-344 | an identifier not followed by `(`, `.` or an operator of the level is a bare access |
| ParserFacts.ArgumentsShape | src/main/java/plc/project/Parser.java:329-340 | an argument list ends at a `)` and is empty exactly when `)` comes first |
| ParserFacts.ArgumentListShape | src/main/java/plc/project/Parser.java:332-340 | the list loop keeps what it collected and adds at least one expression before the `)` |
| ParserFacts.CallExample | src/main/java/plc/project/Parser.java:327-342 | `f(a, b)` is a call of f with the two accesses as arguments |
| ParserFacts.StatementShape | src/main/java/plc/project/Parser.java:112-125 | a statement not starting with a keyword is an assignment exactly when `=` follows the expression, ends with `;`, and a missing `;` is reported where the previous token ends |
| ParserFacts.SourceErrors | src/main/java/plc/project/Parser.java:40-51 | the source rule fails only at a token that starts neither a field nor a method, reporting that token's index |
| Escapes.DecodeEscapes | src/main/java/plc/project/Parser.java:297-317 | decoding never lengthens a literal body (corrected; as written: Escapes.AsWrittenDecode) |
| Escapes.Escape | src/main/java/plc/project/Parser.java:297-317 | escaping at most doubles a string |
| Escapes.DecodeEscapeRoundTrip | src/main/java/plc/project/Parser.java:308-317 | decoding undoes escaping, for every string (corrected; as written: Escapes.AsWrittenDecode) |
| Escapes.DecodeEscapedChar | src/main/java/plc/project/Parser.java:300-316 | decoding reads one escaped character back and goes on after it (corrected; as written: Escapes.AsWrittenDecode) |
| Escapes.CharacterBodyDecodes | src/main/java/plc/project/Parser.java:297-306 | the body of every character literal the lexer accepts decodes to exactly one character (corrected; as written: Escapes.AsWrittenDecode) |
| Escapes.AsWrittenKeepsQuoteEscape | src/main/java/plc/project/Parser.java:297-306 | the replacement passes as written leave `\'` undecoded, where one left-to-right pass gives `'` |
| Escapes.AsWrittenSplitsEscapedBackslash | src/main/java/plc/project/Parser.java:308-317 | the passes as written turn `\\n` into a backslash and a line feed, where one left-to-right pass gives a backslash and `n` |
| Analyzer.Analyzer.constructor | src/main/java/plc/project/Analyzer.java:19-22 | the analyzer's scope is a child of the parent scope in which `print` of arity 1 is defined (Any to Nil), so looking it up finds it |
| Analyzer.Analyzer.VisitExpression | src/main/java/plc/project/Analyzer.java:229-326 | the outcome of visiting an expression (annotated copy or failure) is AnalyzeExpr of the current scope |
| Analyzer.Analyzer.VisitAccess | src/main/java/plc/project/Analyzer.java:329-342 | the outcome of visiting an access is AnalyzeAccess of the current scope |
| Analyzer.Analyzer.VisitFunction | src/main/java/plc/project/Analyzer.java:345-365 | the loop over the arguments gives AnalyzeCall of the current scope |
| Analyzer.Analyzer.VisitOptional | src/main/java/plc/project/Analyzer.java:351-352 | visiting an optional receiver gives AnalyzeOptional |
| Analyzer.Analyzer.VisitStatement | src/main/java/plc/project/Analyzer.java:97-226 | the outcome and the scope after visiting any statement are AnalyzeStmt of the scope before |
| Analyzer.Analyzer.VisitDeclaration | src/main/java/plc/project/Analyzer.java:106-127 | outcome and scope after are AnalyzeDeclaration of the scope before |
| Analyzer.Analyzer.VisitAssignment | src/main/java/plc/project/Analyzer.java:130-143 | outcome and scope after are AnalyzeAssignment of the scope before |
| Analyzer.Analyzer.VisitIf | src/main/java/plc/project/Analyzer.java:146-173 | outcome and scope after are AnalyzeIf of the scope before; each branch's child frame is popped |
| Analyzer.Analyzer.VisitFor | src/main/java/plc/project/Analyzer.java:176-206 | outcome and scope after are AnalyzeFor of the scope before |
| Analyzer.Analyzer.VisitOptionalStatement | src/main/java/plc/project/Analyzer.java:177-182 | visiting the optional initialization or increment gives AnalyzeOptionalStmt |
| Analyzer.Analyzer.VisitWhile | src/main/java/plc/project/Analyzer.java:209-220 | outcome and scope after are AnalyzeWhile of the scope before |
| Analyzer.Analyzer.VisitBlock | src/main/java/plc/project/Analyzer.java:82-87 | the statement loop (with the return check of a method body) gives AnalyzeStmts of the scope before |
| Analyzer.Analyzer.VisitField | src/main/java/plc/project/Analyzer.java:43-61 | outcome and scope after are AnalyzeField of the scope before |
| Analyzer.Analyzer.DefineParameterList | src/main/java/plc/project/Analyzer.java:72-75 | the parameter loop gives DefineParameters of the scope before: the types, and every parameter defined in the current frame |
| Analyzer.Analyzer.VisitMethod | src/main/java/plc/project/Analyzer.java:64-94 | outcome and scope after are AnalyzeMethod of the scope before; the body's frame is popped even on failure |
| Analyzer.Analyzer.VisitFields | src/main/java/plc/project/Analyzer.java:30-32 | the field loop gives AnalyzeFields of the scope before |
| Analyzer.Analyzer.VisitMethods | src/main/java/plc/project/Analyzer.java:33-35 | the method loop gives AnalyzeMethods of the scope before |
| Analyzer.Analyzer.VisitSource | src/main/java/plc/project/Analyzer.java:29-40 | outcome and scope after are AnalyzeSource of the scope before |
| AnalyzerSpec.Require | src/main/java/plc/project/Analyzer.java:367-388 | a check passes exactly when its condition holds |
| AnalyzerSpec.LiteralTyping | src/main/java/plc/project/Analyzer.java:229-261 | a literal gets its kind's type; it is rejected exactly when it is an integer above Integer.MAX_VALUE or a decimal above Double.MAX_VALUE |
| AnalyzerSpec.BinaryTyping | src/main/java/plc/project/Analyzer.java:274-326 | AND/OR and comparisons give Boolean; `+` with a String operand gives String; arithmetic otherwise gives the left operand's type, which must be Integer or Decimal; any other operator is rejected |
| AnalyzerSpec.AnalyzeExpr | src/main/java/plc/project/Analyzer.java:229-365 | an accepted expression comes back as the same tree with every type, variable and function slot filled in |
| AnalyzerSpec.AnalyzeAccess | src/main/java/plc/project/Analyzer.java:329-342 | without a receiver the access is accepted exactly when the name is bound in the scope chain, and gets that variable; with one it gets the receiver type's field of that name |
| AnalyzerSpec.AnalyzeCall | src/main/java/plc/project/Analyzer.java:345-365 | an accepted call has as many arguments, gets the function found by name and arity, and each argument's type is assignable to its parameter type |
| AnalyzerSpec.AnalyzeOptional | src/main/java/plc/project/Analyzer.java:351-352 | an absent receiver stays absent; a present one comes back annotated and otherwise unchanged |
| AnalyzerSpec.ResolveCall | src/main/java/plc/project/Analyzer.java:351-357 | without a receiver the call resolves exactly when the scope chain has a function of that name and arity, and to that function |
| AnalyzerSpec.AnalyzeArguments | src/main/java/plc/project/Analyzer.java:359-362 | the argument loop keeps the arguments already done, annotates the rest in order and checks each against its parameter type |
| AnalyzerSpec.AnalyzeStmt | src/main/java/plc/project/Analyzer.java:97-226 | an accepted statement comes back annotated and otherwise unchanged; outer frames are never changed, and only a declaration or a For changes the scope at all |
| AnalyzerSpec.AnalyzeDeclaration | src/main/java/plc/project/Analyzer.java:106-127 | the declared variable gets the declared type, or else the initializer's type, and is defined in the current frame; with neither the declaration is rejected; on failure the scope is unchanged |
| AnalyzerSpec.AnalyzeAssignment | src/main/java/plc/project/Analyzer.java:130-143 | an accepted assignment has an access receiver whose variable is not constant and whose type takes the value's type; the scope is unchanged |
| AnalyzerSpec.AnalyzeIf | src/main/java/plc/project/Analyzer.java:146-173 | an accepted If has a non-empty then-branch and a condition that passes `requireAssignable(conditionType, Boolean)`; the scope is unchanged |
| AnalyzerSpec.AnalyzeFor | src/main/java/plc/project/Analyzer.java:176-206 | an accepted For has a non-empty body and a condition that passes the Boolean check; outer frames are kept |
| AnalyzerSpec.AnalyzeForBody | src/main/java/plc/project/Analyzer.java:188-203 | after the header, the condition passes the Boolean check and the body is non-empty; the body's frame is popped |
| AnalyzerSpec.ForHeaderCheck | src/main/java/plc/project/Analyzer.java:183-186 | when the initialization is an assignment, its receiver type passes the Comparable check and the increment is an assignment whose receiver type passes against it |
| AnalyzerSpec.AnalyzeOptionalStmt | src/main/java/plc/project/Analyzer.java:177-182 | an absent part stays absent and the scope unchanged; a present one is analyzed as a statement |
| AnalyzerSpec.AnalyzeWhile | src/main/java/plc/project/Analyzer.java:209-220 | an accepted While has a condition that passes the Boolean check; the scope is unchanged |
| AnalyzerSpec.AnalyzeStmts | src/main/java/plc/project/Analyzer.java:82-87 | an accepted list comes back annotated and otherwise unchanged, and every return directly in it fits the method's return type |
| AnalyzerSpec.AnalyzeStmtsFrom | src/main/java/plc/project/Analyzer.java:82-87 | the loop from position k keeps the statements done and annotates the rest, each fitting the return type |
| AnalyzerSpec.AnalyzeField | src/main/java/plc/project/Analyzer.java:43-61 | an accepted field's type exists, its initializer fits that type, a constant has an initializer, and the variable is defined in the current frame; on failure the scope is unchanged |
| AnalyzerSpec.DefineParameters | src/main/java/plc/project/Analyzer.java:72-75 | every parameter type name resolves to the collected type, in order, and outer frames are kept |
| AnalyzerSpec.AnalyzeMethod | src/main/java/plc/project/Analyzer.java:64-94 | an accepted method's function has its name, its return type (Nil when absent), is found by name and arity afterwards, and each return in the body fits its return type |
| AnalyzerSpec.AnalyzeFields | src/main/java/plc/project/Analyzer.java:30-32 | the field loop keeps the fields done and annotates the rest in order |
| AnalyzerSpec.AnalyzeMethods | src/main/java/plc/project/Analyzer.java:33-35 | the method loop keeps the methods done and returns one method per input method |
| AnalyzerSpec.MethodsAnalyzedFrom | src/main/java/plc/project/Analyzer.java:33-35 | every method the loop returns is its input method with the annotation slots filled in |
| AnalyzerSpec.AnalyzeSource | src/main/java/plc/project/Analyzer.java:29-40 | an accepted source has a `main` of arity 0 whose return type passes `requireAssignable(Integer, ·)` |
| AnalyzerSpec.SourceAnalyzedFrom | src/main/java/plc/project/Analyzer.java:29-40 | an accepted source comes back as the same tree with every annotation slot filled in |
| AnalyzerSpec.SourcePointwise | src/main/java/plc/project/Analyzer.java:29-36 | a source whose fields and methods are each annotated copies is an annotated copy |
| AnalyzerFacts.AssignableReflexiveAndTop | src/main/java/plc/project/Analyzer.java:367-373 | every type is assignable to itself and to Any |
| AnalyzerFacts.AssignableNotTransitive | src/main/java/plc/project/Analyzer.java:374-383 | Integer goes to Comparable and Comparable to Decimal, but Integer does not go to Decimal |
| AnalyzerFacts.NilAssignableOnlyToNilOrAny | src/main/java/plc/project/Analyzer.java:367-388 | Nil is assignable to a target exactly when the target is Nil or Any |
| AnalyzerFacts.BinaryTypingExactly | src/main/java/plc/project/Analyzer.java:281-324 | the exact condition under which a binary operator's operand types are accepted, both directions |
| AnalyzerFacts.ArithmeticRightOperandIsTarget | src/main/java/plc/project/Analyzer.java:299-318 | Integer with an Any or Comparable right operand is accepted; Integer with Decimal is rejected either way round; `/` on Strings is rejected |
| AnalyzerFacts.IntegerLiteralBounds | src/main/java/plc/project/Analyzer.java:243-249 | only the upper bound is checked: a value below Integer.MIN_VALUE is accepted, Integer.MAX_VALUE is accepted, one more is rejected |
| AnalyzerFacts.GroupNeedsBinary | src/main/java/plc/project/Analyzer.java:264-271 | a group around anything but a binary node is rejected |
| AnalyzerFacts.EmptyBodies | src/main/java/plc/project/Analyzer.java:150-152 | an empty While body is accepted while an empty then-branch is rejected |
| AnalyzerFacts.FieldCannotSeeItself | src/main/java/plc/project/Analyzer.java:47-58 | a field whose initializer reads the field's own, otherwise unbound, name is rejected |
| AnalyzerFacts.Global | src/main/java/plc/project/Analyzer.java:19-20 | the scope chain of the examples has exactly one frame |
| AnalyzerFacts.DefineParametersKeeps | src/main/java/plc/project/Analyzer.java:72-75 | defining the parameters keeps every name already bound in the current frame bound there, with its binding unchanged unless a parameter has that name |
| AnalyzerFacts.DefineParametersBinds | src/main/java/plc/project/Analyzer.java:72-75 | after the parameter loop every parameter is bound in the current frame, and the last parameter of a name to a mutable variable of that name and of its collected type |
| AnalyzerFacts.ParametersBoundInEnclosingFrame | src/main/java/plc/project/Analyzer.java:64-94 | after any accepted method, every parameter is bound in the frame enclosing the method and resolves there; the last parameter of a name resolves to a mutable variable whose type is the one the function records at that position and the one its type name denotes |
| AnalyzerFacts.MainMethodAnalyzed | src/main/java/plc/project/Analyzer.java:64-94 | an empty `main` method is accepted and defines `main` of arity 0 with the declared return type |
| AnalyzerFacts.MainReturnTypeChecked | src/main/java/plc/project/Analyzer.java:37 | a source of one empty `main` passes exactly when Integer accepts its return type |
| Environment.TypeName | src/main/java/plc/project/Analyzer.java:117 | every type has a non-empty name |
| Environment.GetType | src/main/java/plc/project/Analyzer.java:123 | a type found by name has that name |
| Environment.TypeNameRoundTrip | src/main/java/plc/project/Analyzer.java:117-123 | looking a type up by its own name finds it |
| Environment.GetTypeExactly | src/main/java/plc/project/Analyzer.java:45 | a name resolves exactly when some type has it |
| Environment.Push | src/main/java/plc/project/Analyzer.java:81 | a new scope is the old chain with one empty frame added |
| Environment.Pop | src/main/java/plc/project/Analyzer.java:90 | leaving a scope removes one frame |
| Environment.LookupVariable | src/main/java/plc/project/Analyzer.java:336 | a variable is found exactly when some frame of the chain binds its name |
| Environment.LookupFunction | src/main/java/plc/project/Analyzer.java:356 | a function is found exactly when some frame binds its name and arity |
| Environment.DefineVariable | src/main/java/plc/project/Analyzer.java:58 | defining binds the name in the innermost frame and leaves every other frame and binding alone |
| Environment.DefineFunction | src/main/java/plc/project/Analyzer.java:77 | defining binds the name and arity in the innermost frame and leaves every other frame and binding alone |
| Environment.PushPop | src/main/java/plc/project/Analyzer.java:80-91 | entering and leaving a scope gives the old chain back |
| Environment.LookupThroughPush | src/main/java/plc/project/Analyzer.java:154-156 | an empty child frame does not change what a name resolves to |
| Environment.LookupAfterDefine | src/main/java/plc/project/Analyzer.java:124 | after defining a variable its name resolves to it and every other name resolves as before |
| Environment.LookupAfterDefineFunction | src/main/java/plc/project/Analyzer.java:77 | after defining a function its name and arity resolve to it and every other pair resolves as before |
| Interpreter.Interpreter.constructor | src/main/java/plc/project/Interpreter.java:11-17 | the interpreter's scope is a child of the parent scope in which `print` of arity 1 is defined, so looking it up finds it |
| Interpreter.Interpreter.VisitExpression | src/main/java/plc/project/Interpreter.java:92-233 | the value (or the exception) of visiting an expression and the scope after it are Eval of the scope before |
| Interpreter.Interpreter.VisitBinary | src/main/java/plc/project/Interpreter.java:106-217 | the operator switch gives EvalBinary of the scope before; integer `/` is the corrected division (corrected; as written: InterpreterSpec.ArithmeticAsWritten) |
| Interpreter.Interpreter.VisitLogical | src/main/java/plc/project/Interpreter.java:113-126 | the AND and OR cases give EvalLogical of the scope before |
| Interpreter.Interpreter.VisitComparison | src/main/java/plc/project/Interpreter.java:127-146 | the four ordering cases give EvalComparison of the scope before |
| Interpreter.Interpreter.VisitEquality | src/main/java/plc/project/Interpreter.java:147-152 | the `==` and `!=` cases give EvalEquality of the scope before |
| Interpreter.Interpreter.VisitArithmetic | src/main/java/plc/project/Interpreter.java:153-213 | the chain of class tests of an arithmetic operator, from test k on, gives EvalChain of the scope before |
| Interpreter.Interpreter.VisitStatement | src/main/java/plc/project/Interpreter.java:40-90 | how a statement finishes and the scope after it are Exec of the scope before |
| Interpreter.Interpreter.VisitDeclaration | src/main/java/plc/project/Interpreter.java:45-55 | a declaration finishes and leaves the scope as Exec says: the name bound to the initializer's value or NIL |
| Interpreter.Interpreter.VisitReturn | src/main/java/plc/project/Interpreter.java:87-90 | a return finishes as Exec says: the Return signal carrying the wrapped value |
| Interpreter.Interpreter.VisitBlock | src/main/java/plc/project/Interpreter.java:76 | the statements run in order until one does not finish normally, as ExecBlock says |
| Interpreter.Interpreter.VisitWhile | src/main/java/plc/project/Interpreter.java:72-85 | the loop finishes and leaves the scope as ExecWhile says |
| InterpreterSpec.RequireType | src/main/java/plc/project/Interpreter.java:238-244 | the check passes exactly when the value is an instance of the class, gives the value itself, and otherwise throws a RuntimeException |
| InterpreterSpec.ClassOf | src/main/java/plc/project/Interpreter.java:129 | `getClass()` of a Comparable value is a concrete class the value is an instance of |
| InterpreterSpec.ArithKinds | src/main/java/plc/project/Interpreter.java:153-213 | an arithmetic operator tests only the Decimal and Integer classes, and String for `+` |
| InterpreterSpec.FirstInstance | src/main/java/plc/project/Interpreter.java:154-170 | the first class of the chain the value is an instance of, every earlier class failing its test |
| InterpreterSpec.CompareStrings | src/main/java/plc/project/Interpreter.java:130 | String compareTo, by sign: zero exactly for equal strings |
| InterpreterSpec.CompareValues | src/main/java/plc/project/Interpreter.java:128-145 | compareTo of two values of one class, by sign |
| InterpreterSpec.Arithmetic | src/main/java/plc/project/Interpreter.java:153-213 | the arithmetic operation throws exactly on a zero divisor of `/`, and otherwise keeps the operands' class (corrected; as written: InterpreterSpec.ArithmeticAsWritten) |
| InterpreterSpec.ArithmeticAsWritten | src/main/java/plc/project/Interpreter.java:200-213 | integer `/` as written never throws; every other case is Arithmetic |
| InterpreterSpec.Create | src/main/java/plc/project/Interpreter.java:92-97 | a literal's value is NIL exactly for the null literal |
| InterpreterSpec.Eval | src/main/java/plc/project/Interpreter.java:92-233 | visiting an expression changes only the current frame |
| InterpreterSpec.EvalBinary | src/main/java/plc/project/Interpreter.java:106-217 | the operator switch changes only the current frame |
| InterpreterSpec.EvalLogical | src/main/java/plc/project/Interpreter.java:113-126 | AND and OR change only the current frame |
| InterpreterSpec.EvalComparison | src/main/java/plc/project/Interpreter.java:127-146 | the ordering operators change only the current frame |
| InterpreterSpec.EvalEquality | src/main/java/plc/project/Interpreter.java:147-152 | `==` and `!=` change only the current frame |
| InterpreterSpec.EvalChain | src/main/java/plc/project/Interpreter.java:153-213 | the chain of class tests changes only the current frame |
| InterpreterSpec.Nils | src/main/java/plc/project/Interpreter.java:226 | the names, each bound to a NIL variable of that name |
| InterpreterSpec.BindNils | src/main/java/plc/project/Interpreter.java:226 | binding names to NIL changes only the current frame |
| InterpreterSpec.BindNilsNothing | src/main/java/plc/project/Interpreter.java:226 | binding no names leaves the scope chain as it was |
| InterpreterSpec.BindNilsTwice | src/main/java/plc/project/Interpreter.java:226 | binding two sets of names one after the other is binding their union |
| InterpreterSpec.DefineNilIsBindNils | src/main/java/plc/project/Interpreter.java:226 | the Access visit's definition of its name is binding that one name to NIL |
| InterpreterSpec.Exec | src/main/java/plc/project/Interpreter.java:40-90 | executing a statement changes no frame outside the current one |
| InterpreterSpec.ExecBlock | src/main/java/plc/project/Interpreter.java:76 | a statement list changes no frame outside the current one |
| InterpreterSpec.ExecWhile | src/main/java/plc/project/Interpreter.java:72-85 | the loop changes no frame outside the current one |
| InterpreterFacts.AfterLeft | src/main/java/plc/project/Interpreter.java:154-155 | a visit of the left operand keeps the number of frames |
| InterpreterFacts.ChainAgrees | src/main/java/plc/project/Interpreter.java:153-213 | the repeated visits of the left operand in the chain of class tests behave as one visit |
| InterpreterFacts.LogicalAgrees | src/main/java/plc/project/Interpreter.java:113-126 | AND and OR give the reference value and bind exactly the names their evaluation reaches |
| InterpreterFacts.ComparisonAgrees | src/main/java/plc/project/Interpreter.java:127-146 | the ordering operators give the reference value and bind exactly the names reached |
| InterpreterFacts.EqualityAgrees | src/main/java/plc/project/Interpreter.java:147-152 | `==` and `!=` give the reference value and bind exactly the names reached |
| InterpreterFacts.OperandsAgree | src/main/java/plc/project/Interpreter.java:106-217 | the two operand visits of a binary node, spelled out against the reference |
| InterpreterFacts.ArithmeticAgrees | src/main/java/plc/project/Interpreter.java:153-213 | the arithmetic operators give the reference value and bind exactly the names reached |
| InterpreterFacts.BinaryAgrees | src/main/java/plc/project/Interpreter.java:106-217 | every binary node gives the reference value and binds exactly the names reached |
| InterpreterFacts.EvalAgreesWithReference | src/main/java/plc/project/Interpreter.java:92-233 | for every expression and scope chain, the value is the reference value, independent of the scope chain, and the only change is NIL bindings in the current frame of the names reached |
| InterpreterFacts.EvalTwice | src/main/java/plc/project/Interpreter.java:154-155 | visiting an expression again gives the same value and leaves the scope chain as the first visit left it |
| InterpreterFacts.OrShortCircuits | src/main/java/plc/project/Interpreter.java:118-123 | OR with a TRUE left operand is TRUE and does not evaluate its right operand |
| InterpreterFacts.AndVisitsBoth | src/main/java/plc/project/Interpreter.java:113-117 | AND evaluates its right operand even after a FALSE left one, so a failing right operand still fails it |
| InterpreterFacts.LogicalOperands | src/main/java/plc/project/Interpreter.java:113-126 | on two Booleans AND and OR are the Boolean connectives; a non-Boolean left operand throws |
| InterpreterFacts.ComparisonOfNumbers | src/main/java/plc/project/Interpreter.java:127-146 | integers and decimals compare by their values, the decimal scale playing no part |
| InterpreterFacts.ComparisonNeedsOneClass | src/main/java/plc/project/Interpreter.java:127-146 | a comparison throws on a NIL left operand and on operands of two different classes |
| InterpreterFacts.CompareStringsAntisymmetric | src/main/java/plc/project/Interpreter.java:130 | String compareTo is antisymmetric |
| InterpreterFacts.CompareStringsPrefix | src/main/java/plc/project/Interpreter.java:130 | a proper prefix compares below the longer string |
| InterpreterFacts.CompareValuesAntisymmetric | src/main/java/plc/project/Interpreter.java:128-145 | compareTo between two values of one class is antisymmetric |
| InterpreterFacts.ComparisonConverse | src/main/java/plc/project/Interpreter.java:127-146 | `l < r` equals `r > l` and `l <= r` equals `r >= l` |
| InterpreterFacts.NotEqualNegatesEqual | src/main/java/plc/project/Interpreter.java:147-152 | `!=` is the negation of `==`, and `==` is the reference comparison |
| InterpreterFacts.CombineArithmetic | src/main/java/plc/project/Interpreter.java:153-213 | operands of a matching class pass the chain's tests and reach the arithmetic operation |
| InterpreterFacts.PlusOperands | src/main/java/plc/project/Interpreter.java:153-171 | `+` adds two integers or two decimals exactly and concatenates two strings; any other pair throws |
| InterpreterFacts.ArithmeticNeedsNumbers | src/main/java/plc/project/Interpreter.java:172-213 | an arithmetic operator on operands it does not compute on throws a RuntimeException |
| InterpreterFacts.IntegerArithmetic | src/main/java/plc/project/Interpreter.java:172-213 | integer `-` and `*` are exact, and `/` truncates toward zero and throws on a zero divisor (corrected; as written: InterpreterFacts.IntegerDivisionAsWritten) |
| InterpreterFacts.DecimalArithmetic | src/main/java/plc/project/Interpreter.java:172-205 | decimal `-` and `*` are exact; `/` keeps the dividend's scale, is within half a unit of the exact quotient, and throws on a zero divisor |
| InterpreterFacts.IntegerDivisionAsWritten | src/main/java/plc/project/Interpreter.java:206-210 | as written, 7 / 2 gives 14 and 7 / 0 gives 0, where the intended division gives 3 and throws |
| InterpreterFacts.UnknownOperatorThrows | src/main/java/plc/project/Interpreter.java:214-215 | an operator outside the switch throws before either operand is visited |
| InterpreterFacts.AccessIsPlaceholder | src/main/java/plc/project/Interpreter.java:220-228 | an Access without a receiver evaluates to its own name and rebinds that name to NIL in the current frame |
| InterpreterFacts.EvalAccessWithoutReceiver | src/main/java/plc/project/Interpreter.java:226-227 | the exact outcome and scope of a receiver-less Access |
| InterpreterFacts.LiteralValue | src/main/java/plc/project/Interpreter.java:92-97 | a literal leaves the scope chain alone and is NIL exactly for the null literal |
| InterpreterFacts.DeclarationBinds | src/main/java/plc/project/Interpreter.java:45-55 | a declaration binds its name, as a mutable variable, to the initializer's value or to NIL |
| InterpreterFacts.DeclarationFails | src/main/java/plc/project/Interpreter.java:46-47 | a failing initializer throws and defines nothing more |
| InterpreterFacts.ReturnWraps | src/main/java/plc/project/Interpreter.java:87-89 | Return ends with the Return signal, carrying the value wrapped in one more object |
| InterpreterFacts.WhileFalseSkipsBody | src/main/java/plc/project/Interpreter.java:72-82 | a loop whose condition is FALSE does not run its body |
| InterpreterFacts.WhileNeedsBoolean | src/main/java/plc/project/Interpreter.java:73 | a condition that is not a Boolean throws |
| InterpreterFacts.WhileRestoresScope | src/main/java/plc/project/Interpreter.java:74-80 | however the loop ends, the frames its iterations opened are closed again |
| InterpreterFacts.WhileTrueRunsOut | src/main/java/plc/project/Interpreter.java:72-81 | `WHILE TRUE DO END` does not finish for any fuel and leaves the scope chain unchanged |
| InterpreterFacts.ReturnLeavesWhile | src/main/java/plc/project/Interpreter.java:74-80 | a Return in the body leaves the loop at once, carrying its value out |
| Numbers.Pow10Add | src/main/java/plc/project/Interpreter.java:157 | 10^(m+n) is 10^m times 10^n |
| Numbers.Add | src/main/java/plc/project/Interpreter.java:157 | BigDecimal.add is exact, at the larger scale |
| Numbers.Subtract | src/main/java/plc/project/Interpreter.java:176 | BigDecimal.subtract is exact, at the larger scale |
| Numbers.Multiply | src/main/java/plc/project/Interpreter.java:190 | BigDecimal.multiply is exact, at the sum of the scales |
| Numbers.Compare | src/main/java/plc/project/Interpreter.java:130 | BigDecimal.compareTo is the sign of the difference of the values, in both directions |
| Numbers.RoundHalfEven | src/main/java/plc/project/Interpreter.java:204 | the rounded quotient is within half the divisor, and even on a tie |
| Numbers.Divide | src/main/java/plc/project/Interpreter.java:204 | BigDecimal.divide with HALF_EVEN fails exactly on a zero divisor and keeps the dividend's scale |
| Numbers.DivideIsNearest | src/main/java/plc/project/Interpreter.java:204 | the quotient is within half a unit in its last place of the exact quotient |
| Numbers.DivideExamples | src/main/java/plc/project/Interpreter.java:204 | 7.0 / 2.0 is 3.5; 5 / 2 rounds to 2 and 7 / 2 to 4; a zero divisor fails |
| Numbers.TruncatedDivide | src/main/java/plc/project/Interpreter.java:206-210 | BigInteger.divide fails exactly on a zero divisor; the remainder is smaller than the divisor and has the dividend's sign |
| Numbers.NatToString | src/main/java/plc/project/Generator.java:260 | a natural number's text is one or more digits |
| Numbers.NatToStringValue | src/main/java/plc/project/Generator.java:260 | the digits of a natural number's text denote it |
| Numbers.ParseBigInteger | src/main/java/plc/project/Parser.java:291-293 | text that parses as an integer is not empty |
| Numbers.IntRoundTrip | src/main/java/plc/project/Parser.java:291-293 | an integer's text parses back to the same integer |
| Numbers.DotIndex | src/main/java/plc/project/Parser.java:294-295 | the position of the first point, or the end when there is none |
| Numbers.ParseDecimalExample | src/main/java/plc/project/Parser.java:294-295 | "3.50" parses to 350 at scale 2 |
| Numbers.ParseNegativeDecimalExample | src/main/java/plc/project/Parser.java:294-295 | "-0.5" parses to -5 at scale 1 |
| Numbers.ParseRejectsExamples | src/main/java/plc/project/Parser.java:291-295 | "1.2.3" is not a decimal and "1a" is not an integer |
| Numbers.ParseSignedIntegerExample | src/main/java/plc/project/Parser.java:291-293 | "+12" parses to 12 |
| Generator.Generator.constructor | src/main/java/plc/project/Generator.java:10-12 | a new generator has written nothing and is at indentation 0 |
| Generator.Generator.Print | src/main/java/plc/project/Generator.java:14-22 | the text is appended to the output; the indentation is unchanged |
| Generator.Generator.Newline | src/main/java/plc/project/Generator.java:24-30 | a line separator and four spaces per level are appended |
| Generator.Generator.VisitExpression | src/main/java/plc/project/Generator.java:249-310 | visiting an expression appends exactly its text and restores the indentation |
| Generator.Generator.VisitLiteral | src/main/java/plc/project/Generator.java:249-264 | a literal appends its text: quoted and escaped for a String or Character, `null` for Nil, the value otherwise (corrected; as written: GeneratorSpec.LiteralTextAsWritten) |
| Generator.Generator.VisitGroup | src/main/java/plc/project/Generator.java:267-272 | a group appends its expression's text in parentheses |
| Generator.Generator.VisitBinary | src/main/java/plc/project/Generator.java:275-280 | a binary node appends the left text, the operator between spaces, and the right text |
| Generator.Generator.VisitAccess | src/main/java/plc/project/Generator.java:283-290 | an access appends the receiver and a dot when present, then the variable's JVM name |
| Generator.Generator.VisitFunction | src/main/java/plc/project/Generator.java:293-310 | a call appends the receiver, the function's JVM name and the arguments in parentheses |
| Generator.Generator.VisitReceiver | src/main/java/plc/project/Generator.java:294-297 | a present receiver appends its text and a dot; an absent one appends nothing |
| Generator.Generator.VisitArguments | src/main/java/plc/project/Generator.java:300-306 | the argument loop appends the arguments' texts separated by `, ` |
| Generator.Generator.VisitStatement | src/main/java/plc/project/Generator.java:124-246 | visiting a statement appends exactly its text at the current indentation and restores the indentation |
| Generator.Generator.VisitExpressionStatement | src/main/java/plc/project/Generator.java:124-128 | an expression statement appends the expression's text and `;` |
| Generator.Generator.VisitDeclaration | src/main/java/plc/project/Generator.java:131-143 | a declaration appends the type's JVM name, the variable's JVM name, the optional initializer and `;` |
| Generator.Generator.VisitInitializer | src/main/java/plc/project/Generator.java:136-138 | a present initializer appends ` = ` and its text |
| Generator.Generator.VisitAssignment | src/main/java/plc/project/Generator.java:146-151 | an assignment appends the receiver, ` = `, the value and `;` |
| Generator.Generator.VisitIf | src/main/java/plc/project/Generator.java:154-182 | an If appends the condition in `if (...) {`, the then block, `}`, and the else block only when it is non-empty |
| Generator.Generator.VisitFor | src/main/java/plc/project/Generator.java:185-217 | a For appends `for ( `, the initialization or `;`, the condition, the optional increment, ` ) {`, the block and `}` |
| Generator.Generator.VisitForInit | src/main/java/plc/project/Generator.java:187-192 | a present initialization appends its statement text; an absent one appends `;` |
| Generator.Generator.VisitIncrement | src/main/java/plc/project/Generator.java:194-199 | a present increment appends a space, the receiver, ` = ` and the value, without `;` |
| Generator.Generator.VisitWhile | src/main/java/plc/project/Generator.java:220-238 | a While appends the condition in `while (...) {`, the block and `}` |
| Generator.Generator.VisitReturn | src/main/java/plc/project/Generator.java:241-246 | a return appends `return `, the value and `;` |
| Generator.Generator.VisitBody | src/main/java/plc/project/Generator.java:223-232 | a block appends nothing when empty, otherwise its statements one level deeper, each on its own line, and a line back at the current level; the indentation is restored |
| Generator.Generator.VisitStatements | src/main/java/plc/project/Generator.java:225-230 | the statement loop appends the statements' texts separated by line breaks at the current level |
| Generator.Generator.VisitField | src/main/java/plc/project/Generator.java:76-90 | a field appends `final ` when constant, the type's and the variable's JVM names, the optional value and `;` |
| Generator.Generator.VisitMethod | src/main/java/plc/project/Generator.java:93-121 | a method appends the return type's JVM name, the function's JVM name, the typed parameters in parentheses and the body block |
| Generator.Generator.VisitParameters | src/main/java/plc/project/Generator.java:97-105 | the parameter loop appends each parameter type's JVM name and the parameter's name, separated by `, ` |
| Generator.Generator.VisitSource | src/main/java/plc/project/Generator.java:32-73 | a source appends the class header, the fields block, the `main` wrapper, each method on its own lines and the closing `}`; the indentation ends where it started |
| Generator.Generator.VisitMainWrapper | src/main/java/plc/project/Generator.java:52-58 | the wrapper appends the `public static void main` method that exits with `new Main().main()` |
| Generator.Generator.VisitFields | src/main/java/plc/project/Generator.java:40-46 | the fields block appends each field on its own line one level deep and an empty line after them, or nothing without fields |
| Generator.Generator.VisitMethods | src/main/java/plc/project/Generator.java:62-66 | the method loop appends each method on its own line followed by a line break |
| Generator.Generator.VisitMethodLine | src/main/java/plc/project/Generator.java:63-65 | one method's line: a line break at the current level, the method and a line break |
| GeneratorSpec.Indentation | src/main/java/plc/project/Generator.java:26-28 | the indentation of level n is exactly 4n spaces, none below level 0 |
| GeneratorSpec.LiteralText | src/main/java/plc/project/Generator.java:249-264 | a literal other than a String or Character is written as written in the source; a String or Character value is re-escaped (corrected; as written: GeneratorSpec.LiteralTextAsWritten) |
| GeneratorFacts.ArgumentsJoin | src/main/java/plc/project/Generator.java:300-306 | the arguments' text is their texts joined with `, ` |
| GeneratorFacts.LinesJoin | src/main/java/plc/project/Generator.java:110-115 | the statements' text is their texts joined with a line break to the current level |
| GeneratorFacts.ParametersJoin | src/main/java/plc/project/Generator.java:97-105 | the parameters' text is their texts joined with `, ` |
| GeneratorFacts.EscapedCharIsStringBody | src/main/java/plc/project/Generator.java:251 | an escaped character followed by a valid String body is a valid String body |
| GeneratorFacts.EscapedIsStringBody | src/main/java/plc/project/Generator.java:251 | every escaped string is a String literal body the lexer accepts |
| GeneratorFacts.StringBodyStaysOnLine | src/main/java/plc/project/Lexer.java:142-151 | a String body the lexer accepts holds no line break and every double quote in it is escaped |
| GeneratorFacts.StringLiteralRoundTrip | src/main/java/plc/project/Generator.java:250-251 | a String literal is written as quotes around a body the lexer accepts, whose decoding is the value (corrected; as written: GeneratorFacts.AsWrittenLiteralBreaksLine) |
| GeneratorFacts.CharacterLiteralRoundTrip | src/main/java/plc/project/Generator.java:253-254 | a Character literal is written as single quotes around one character or one escape, whose decoding is the character (corrected; as written: GeneratorSpec.LiteralTextAsWritten) |
| GeneratorFacts.EscapeKeepsPlain | src/main/java/plc/project/Generator.java:251 | a string without a character that needs escaping is written unchanged |
| GeneratorFacts.AsWrittenLiteralBreaksLine | src/main/java/plc/project/Generator.java:250-251 | as written, the String holding a line feed is written with a raw line feed between the quotes, which the lexer rejects; escaped, it is `"\n"` |
| GeneratorFacts.FieldIsDeclaration | src/main/java/plc/project/Generator.java:76-90 | a field is written as the declaration of its name, after `final ` when constant |
| GeneratorFacts.BodyShape | src/main/java/plc/project/Generator.java:223-232 | an empty block is written as nothing; otherwise as a line break one level deeper, the statements joined by such breaks, and a break back |
| GeneratorFacts.CallShape | src/main/java/plc/project/Generator.java:293-310 | a call is the receiver, the function's JVM name and the arguments joined with `, ` in parentheses |
| GeneratorFacts.DeclarationExample | src/test/java/plc/project/EndToEndGeneratorTests.java:158-162 | `LET name: Integer;` is written `int name;` |
| GeneratorFacts.BinaryExample | src/test/java/plc/project/EndToEndGeneratorTests.java:255-259 | `TRUE && FALSE` is written `true && false` |
| GeneratorFacts.PrintLineFeedExample | src/test/java/plc/project/EndToEndGeneratorTests.java:135-145 | `print(num + "\n");` is written `System.out.println(num + "\n");` with the escape kept, as the test expects |
| GeneratorFacts.MainWrapperExample | src/main/java/plc/project/Generator.java:52-58 | with the separator "\n", the wrapper at level 1 is a line break, `public static void main(String[] args) {` at 4 spaces, the `System.exit` call at 8 spaces and `}` at 4 spaces, then a line break |
| GeneratorFacts.PrintStatementText | src/main/java/plc/project/Generator.java:293-310 | `print(s);` is written as `System.out.println(` with the escaped String literal, `)` and `;` |
| GeneratorFacts.TwoStatementMainText | src/main/java/plc/project/Generator.java:93-121 | `int main()` with two statements is written as its header, each statement on its own line at 8 spaces, and `}` at 4 spaces |
| GeneratorFacts.OneMethodSourceText | src/main/java/plc/project/Generator.java:32-73 | a source with no fields and one method is the class header, the wrapper, the method on its own line at 4 spaces followed by a blank line, and the closing brace |
| GeneratorFacts.SourceExample | src/test/java/plc/project/EndToEndGeneratorTests.java:26-45 | the Hello, World! source is written exactly as the twelve lines the test expects |

## Left out

- Input and output: reading source files, `PrintWriter` output and `System.out` are not modelled. The generator's output is a string field. The built-in `print` is defined in both scopes but never called, because calls are unimplemented in the interpreter.
- The line separator the generator's `newline` writes is a parameter (`separator`).
- Java type names are a parameter `jvm: Type -> string`. `Environment.java` and `Scope.java` are not part of this model. Their behaviour is modelled from the calls the core makes: `getType`, `defineVariable`, `defineFunction`, `lookupVariable` and `lookupFunction`, and a new child `Scope`.
- An unknown name is a failed lookup (`None`) that the visits turn into a rejection. In Java it is an exception thrown by `Scope`.
- The registered types' fields and methods and their Comparable subtypes are a parameter (`AnalyzerSpec.Types`), because they come from `Environment.java`.
- The interpreter visits of Source, Field, Method, the expression statement, Assignment, If, For and the function call throw `UnsupportedOperationException` in the source. They are modelled as that failure (`Unsupported`) and nothing more.
- The parser's field, method, declaration, if, for, while and return rules are unfinished in the source. The field and method rules consume their keywords and return empty nodes; the rest throw. The model does exactly that.
- `Interpreter.Interpreter.VisitWhile`: the loop takes a `fuel` bound on its iterations. A loop that would not end runs out of fuel (`OutOfFuel`), so non-termination is observed only up to the bound.
- `InterpreterSpec.EvalEquality`: Java's reference comparison `==` of the operands' values is a parameter `same`. Object identity and the interning of small integers, strings and Booleans are not modelled.
- `InterpreterSpec.CompareStrings`: Java's String `compareTo` compares UTF-16 code units, with the first difference or else the length deciding. The model compares Unicode scalar values in the same way, and only the sign is modelled. For strings outside the Basic Multilingual Plane the order can differ: `"\U{1F600}"` sorts after `"\U{FFFD}"` here, but before it in Java, because its first code unit 0xD83D is below 0xFFFD.
- `LexerSpec.CharacterToken`: a plain character is one Unicode scalar value here, where Java's `charAt` reads one UTF-16 code unit. So `'\U{1F600}'` is a CHARACTER token here. Java matches only the high surrogate, finds the low surrogate where the closing quote should be, and throws at offset 2.
- `LexerSpec.ScanCharacter`: the same gap. It accepts a character literal holding a character outside the Basic Multilingual Plane, which Java rejects.
- `Lexer.Lexer.LexCharacter`: the same gap, since it computes `LexerSpec.ScanCharacter`.
- Offsets are counted in Unicode scalar values, not in Java's UTF-16 code units. Three effects follow when the input holds a character outside the Basic Multilingual Plane: a character literal holding one is accepted (`LexerSpec.CharacterToken` above); every later token index and error offset is one less per such character than in Java; and strings holding one can compare in a different order (`InterpreterSpec.CompareStrings` above).
- The analyzer fills the annotation slots of a returned copy of the tree rather than setting them on the nodes in place. Aliasing between nodes is therefore not modelled.
- Analyzer exceptions are kept apart by kind only: `Rejected` for a RuntimeException the analyzer throws, `Unchecked` for a null pointer or a failed cast. Their messages are left out, and so are the parser's and lexer's exception messages.
- `Numbers.ParseBigInteger`: BigInteger accepts Unicode digits and BigDecimal accepts exponent notation. The model reads only ASCII digits and the plain notation. The lexer never produces the other forms.
- `GeneratorSpec.LiteralText` and the generator's other spec functions require an analyzed tree (`Printable`). The source dereferences the annotation slots without a check and throws `NullPointerException` on an unanalyzed tree; that failure is not modelled.
- `LexerTrash.java`, an unused earlier lexer, is not part of this model. Neither is `Harness.java`, the command-line entry point.
- The parser builds the `Ast.Expr`/`Ast.Stmt` trees and the analyzer, interpreter and generator visit `Ast.Expression`/`Ast.Statement`. The model uses one tree type for both.

## Findings

| source | as written | input that shows it | evidently intended | confidence | as-written member | corrected member |
|---|---|---|---|---|---|---|
| src/main/java/plc/project/Interpreter.java:206-210 | the BigInteger branch of `/` calls `multiply` | `7 / 2` gives 14, and `7 / 0` gives 0 instead of throwing | `BigInteger.divide`: 3, and an ArithmeticException for a zero divisor | not executed | InterpreterFacts.IntegerDivisionAsWritten | InterpreterFacts.IntegerArithmetic |
| src/main/java/plc/project/Parser.java:297-317 | escapes are decoded by six whole-string `replace` passes, with no pass for `\'` | the character literal `'\''` keeps its backslash, so its value is a lone backslash and the generator writes `'\'`, which is not valid Java; the string body `\\n` becomes a backslash and a line feed | one left-to-right pass over all seven escape codes, so that decoding undoes escaping | not executed | Escapes.AsWrittenKeepsQuoteEscape | Escapes.DecodeEscapeRoundTrip |
| src/main/java/plc/project/Generator.java:249-264 | the decoded value of a String or Character literal is written between the quotes unchanged | `print(num + "\n");` from the While test is written with a raw line break between the quotes, where the test expects `"\n"` | re-escape the value so that the written literal decodes back to it | not executed | GeneratorFacts.AsWrittenLiteralBreaksLine | GeneratorFacts.StringLiteralRoundTrip |
