/**
  The tokenizer of src/lexer.rs.

  The crate declares its token classes to a lexer generator; this module
  spells out the behaviour those declarations ask for: at each position the
  longest match wins, a keyword beats the identifier pattern on a tie, the
  integer pattern beats the float pattern on a tie, whitespace and `//`
  comments produce nothing, and a character no pattern accepts produces one
  `Error` token.
 */
module Lexer {
  import opened Options
  import opened Numbers

  /**
    The token classes.  The skipped `Comment` class is never produced, so it
    has no constructor here.
   */
  datatype Token =
    | MultilineCommentStart | MultilineCommentEnd
    | RuleDefinition | RuleInvocation
    | Set
    | BracketOpen | BracketClose
    | MoreThan | Multiply
    | LiteralInteger | LiteralFloat
    | MaxDepth | Weight | Hue | Brightness | Alpha | Color
    | Reflect | Blend | Matrix | Sat | V
    | X | Y | Z | Rx | Ry | Rz | S | Fx | Fy | Fz
    | Error

  /** A token with the text it was read from (what `lexer.slice()` returns after it). */
  datatype Lexeme = Lexeme(token: Token, slice: string)

  /** The characters of the skipped whitespace pattern `[ \t\n\f]+`. */
  predicate IsSpace(c: char) {
    c == ' ' || c == '\t' || c == '\n' || c == '\U{C}'
  }

  predicate IsLetter(c: char) {
    'a' <= c <= 'z' || 'A' <= c <= 'Z'
  }

  predicate IsAlnum(c: char) {
    IsLetter(c) || IsDigit(c)
  }

  predicate NotNewline(c: char) {
    c != '\n'
  }

  /** The length of the longest prefix of `s` whose characters all satisfy `p`. */
  function Span(s: string, p: char -> bool): (n: nat)
    ensures n <= |s|
    ensures n < |s| ==> !p(s[n])
  {
    if s == [] || !p(s[0]) then 0 else 1 + Span(s[1..], p)
  }

  /** Every character inside a span matches. */
  lemma {:induction false} SpanMatches(s: string, p: char -> bool)
    ensures forall i :: 0 <= i < Span(s, p) ==> p(s[i])
  {
    if s != [] && p(s[0]) {
      SpanMatches(s[1..], p);
      assert forall i :: 1 <= i < Span(s, p) ==> s[i] == s[1..][i - 1];
    }
  }

  /** The keyword token a whole word spells, if any. */
  function Keyword(w: string): Option<Token> {
    if w == "set" then Some(Set)
    else if w == "maxdepth" || w == "md" then Some(MaxDepth)
    else if w == "weight" || w == "w" then Some(Weight)
    else if w == "hue" || w == "h" then Some(Hue)
    else if w == "brightness" || w == "b" then Some(Brightness)
    else if w == "alpha" || w == "a" then Some(Alpha)
    else if w == "color" || w == "c" then Some(Color)
    else if w == "reflect" then Some(Reflect)
    else if w == "blend" then Some(Blend)
    else if w == "matrix" then Some(Matrix)
    else if w == "sat" then Some(Sat)
    else if w == "v" then Some(V)
    else if w == "x" then Some(X)
    else if w == "y" then Some(Y)
    else if w == "z" then Some(Z)
    else if w == "rx" then Some(Rx)
    else if w == "ry" then Some(Ry)
    else if w == "rz" then Some(Rz)
    else if w == "s" then Some(S)
    else if w == "fx" then Some(Fx)
    else if w == "fy" then Some(Fy)
    else if w == "fz" then Some(Fz)
    else None
  }

  /** The class of a whole word of letters and digits: its keyword, else an invocation. */
  function WordClass(w: string): Token {
    match Keyword(w)
    case Some(k) => k
    case None => RuleInvocation
  }

  /** The length of an optional leading sign. */
  function SignLength(s: string): (n: nat)
    ensures n <= |s|
  {
    if 0 < |s| && (s[0] == '+' || s[0] == '-') then 1 else 0
  }

  /** The length of the longest match of `[+-]?[0-9]+` at the start of `s`, or 0. */
  function IntegerLength(s: string): (n: nat)
    ensures n <= |s|
  {
    var p := SignLength(s);
    var d := Span(s[p..], IsDigit);
    if d == 0 then 0 else p + d
  }

  /** The length of the longest match of `[+-]?[0-9]*[.]?[0-9]+` at the start of `s`, or 0. */
  function FloatLength(s: string): (n: nat)
    ensures n <= |s|
  {
    var p := SignLength(s);
    var q := p + Span(s[p..], IsDigit);
    if q + 1 < |s| && s[q] == '.' && IsDigit(s[q + 1]) then q + 1 + Span(s[q + 1..], IsDigit)
    else if q == p then 0
    else q
  }

  /**
    The token at the start of `s` and the length of its text, by longest
    match; `s` starts with neither whitespace nor `//`.
   */
  function Scan(s: string): (r: (Token, nat))
    requires 0 < |s|
    ensures 0 < r.1 <= |s|
  {
    var c := s[0];
    if IsLetter(c) then
      if 5 < |s| && s[..5] == "rule " && IsLetter(s[5]) then (RuleDefinition, 5 + Span(s[5..], IsAlnum))
      else
        var n := Span(s, IsAlnum);
        (WordClass(s[..n]), n)
    else if IsNumberStart(c) then
      var f := FloatLength(s);
      if f == 0 then (Error, 1)
      else if IntegerLength(s) == f then (LiteralInteger, f)
      else (LiteralFloat, f)
    else if c == '{' then (BracketOpen, 1)
    else if c == '}' then (BracketClose, 1)
    else if c == '>' then (MoreThan, 1)
    else if c == '*' then (if 1 < |s| && s[1] == '/' then (MultilineCommentEnd, 2) else (Multiply, 1))
    else if c == '/' && 1 < |s| && s[1] == '*' then (MultilineCommentStart, 2)
    else (Error, 1)
  }

  /** The token stream of a program text (the lexer iterator run to its end). */
  function Lex(s: string): (ls: seq<Lexeme>)
    ensures forall l <- ls :: 0 < |l.slice| <= |s|
    ensures 0 < |s| && (IsSpace(s[0]) || (1 < |s| && s[0] == '/' && s[1] == '/')) ==>
              forall l <- ls :: |l.slice| < |s|
  {
    if s == [] then []
    else if IsSpace(s[0]) then Lex(s[Span(s, IsSpace)..])
    else if 1 < |s| && s[0] == '/' && s[1] == '/' then Lex(s[Span(s, NotNewline)..])
    else
      var (t, n) := Scan(s);
      [Lexeme(t, s[..n])] + Lex(s[n..])
  }

  /** Away from whitespace and `//`, the stream starts with the scanned token. */
  lemma LexStep(s: string)
    requires 0 < |s| && !IsSpace(s[0]) && !(1 < |s| && s[0] == '/' && s[1] == '/')
    ensures Lex(s) == [Lexeme(Scan(s).0, s[..Scan(s).1])] + Lex(s[Scan(s).1..])
  {
  }

  /** The span over a concatenation: it crosses into `b` only when all of `a` matches. */
  lemma {:induction false} SpanConcat(a: string, b: string, p: char -> bool)
    ensures Span(a + b, p) == if Span(a, p) < |a| then Span(a, p) else |a| + Span(b, p)
  {
    if a == [] {
      assert a + b == b;
    } else {
      assert (a + b)[0] == a[0];
      assert (a + b)[1..] == a[1..] + b;
      SpanConcat(a[1..], b, p);
    }
  }

  /** A run of whitespace produces no token. */
  lemma SpacesSkipped(ws: string, rest: string)
    requires 0 < |ws| && forall i :: 0 <= i < |ws| ==> IsSpace(ws[i])
    ensures Lex(ws + rest) == Lex(rest)
  {
    var s := ws + rest;
    SpanConcat(ws, rest, IsSpace);
    assert s[0] == ws[0];
    var k := Span(rest, IsSpace);
    assert s[Span(s, IsSpace)..] == rest[k..];
    if rest != [] && !IsSpace(rest[0]) {
      assert rest[k..] == rest;
    }
  }

  /** A `//` comment produces no token; it ends before the newline. */
  lemma LineCommentSkipped(body: string, rest: string)
    requires forall i :: 0 <= i < |body| ==> body[i] != '\n'
    requires rest == [] || rest[0] == '\n'
    ensures Lex("//" + body + rest) == Lex(rest)
  {
    var c := "//" + body;
    var s := c + rest;
    assert s == "//" + body + rest;
    assert forall i :: 0 <= i < |c| ==> NotNewline(c[i]) by {
      forall i | 0 <= i < |c|
        ensures NotNewline(c[i])
      {
        if 2 <= i {
          assert c[i] == body[i - 2];
        }
      }
    }
    SpanConcat(c, rest, NotNewline);
    assert s[Span(s, NotNewline)..] == rest;
    assert s[0] == '/' && s[1] == '/';
  }

  /** A signed digit string not followed by a fraction is one integer literal. */
  lemma IntegerToken(sign: string, digits: string, rest: string)
    requires sign in ["", "+", "-"]
    requires 0 < |digits| && AllDigits(digits)
    requires rest == [] || (!IsDigit(rest[0]) && !(rest[0] == '.' && 1 < |rest| && IsDigit(rest[1])))
    ensures Lex(sign + digits + rest) == [Lexeme(LiteralInteger, sign + digits)] + Lex(rest)
  {
    var s := sign + digits + rest;
    var q := |sign| + |digits|;
    IntegerLengths(sign, digits, rest);
    NumberScan(s);
    LexStep(s);
    assert s[..q] == sign + digits;
    assert s[q..] == rest;
  }

  lemma IntegerLengths(sign: string, digits: string, rest: string)
    requires sign in ["", "+", "-"]
    requires 0 < |digits| && AllDigits(digits)
    requires rest == [] || (!IsDigit(rest[0]) && !(rest[0] == '.' && 1 < |rest| && IsDigit(rest[1])))
    ensures var s := sign + digits + rest;
      IsNumberStart(s[0]) && FloatLength(s) == |sign| + |digits| == IntegerLength(s)
  {
    var s := sign + digits + rest;
    var p := |sign|;
    var q := p + |digits|;
    assert SignLength(s) == p by {
      if sign == "" {
        assert s[0] == digits[0];
      } else {
        assert s[0] == sign[0];
      }
    }
    assert s[p..] == digits + rest;
    SpanConcat(digits, rest, IsDigit);
    SpanAll(digits, IsDigit);
    if q < |s| {
      assert s[q] == rest[0];
      if q + 1 < |s| {
        assert s[q + 1] == rest[1];
      }
    }
  }

  /** A string whose characters all match spans itself. */
  lemma SpanAll(a: string, p: char -> bool)
    requires forall i :: 0 <= i < |a| ==> p(a[i])
    ensures Span(a, p) == |a|
  {
    SpanConcat(a, [], p);
    assert a + [] == a;
  }

  /** The characters that can start a number. */
  predicate IsNumberStart(c: char) {
    IsDigit(c) || c == '+' || c == '-' || c == '.'
  }

  /** The scan at a sign, point or digit, unfolded into the two pattern lengths. */
  lemma NumberScan(s: string)
    requires 0 < |s| && IsNumberStart(s[0])
    ensures !IsSpace(s[0]) && s[0] != '/'
    ensures Scan(s) == (if FloatLength(s) == 0 then (Error, 1)
                        else if IntegerLength(s) == FloatLength(s) then (LiteralInteger, FloatLength(s))
                        else (LiteralFloat, FloatLength(s)))
  {
  }

  /** `t` without one leading sign. */
  function Unsigned(t: string): string {
    if 0 < |t| && t[0] in "+-" then t[1..] else t
  }

  /** `t` matches the integer pattern `[+-]?[0-9]+`. */
  predicate IntegerShaped(t: string) {
    var u := Unsigned(t);
    0 < |u| && AllDigits(u)
  }

  /** `t` matches the float pattern `[+-]?[0-9]*[.]?[0-9]+`. */
  predicate FloatShaped(t: string) {
    var u := Unsigned(t);
    0 < |u| && (AllDigits(u) || exists j :: 0 <= j < |u| - 1 && u[j] == '.' && AllDigits(u[..j]) && AllDigits(u[j + 1..]))
  }

  /** Every prefix of `s` longer than its sign is `s` from the sign on, unsigned. */
  lemma UnsignedPrefix(s: string, m: nat)
    requires 0 < m <= |s|
    ensures Unsigned(s[..m]) == s[SignLength(s)..m]
  {
    assert s[..m][0] == s[0];
  }

  /** A run of digits from `i` to `j` lies inside the digit span from `i`. */
  lemma DigitRun(s: string, i: nat, j: nat)
    requires i <= j <= |s| && AllDigits(s[i..j])
    ensures j - i <= Span(s[i..], IsDigit)
  {
  }

  /** `IntegerLength` is the length of the longest integer-shaped prefix, 0 when there is none. */
  lemma IntegerLongest(s: string)
    ensures 0 < IntegerLength(s) ==> IntegerShaped(s[..IntegerLength(s)])
    ensures forall m :: IntegerLength(s) < m <= |s| ==> !IntegerShaped(s[..m])
  {
    var p := SignLength(s);
    var d := Span(s[p..], IsDigit);
    SpanMatches(s[p..], IsDigit);
    if 0 < d {
      UnsignedPrefix(s, p + d);
      assert forall i :: 0 <= i < d ==> s[p..p + d][i] == s[p..][i];
    }
    forall m | IntegerLength(s) < m <= |s|
      ensures !IntegerShaped(s[..m])
    {
      UnsignedPrefix(s, m);
      if IntegerShaped(s[..m]) {
        DigitRun(s, p, m);
      }
    }
  }

  /** The digits after the sign, up to the digit span's end. */
  lemma LeadingDigits(s: string)
    ensures var p := SignLength(s); AllDigits(s[p..p + Span(s[p..], IsDigit)])
  {
    var p := SignLength(s);
    var d := Span(s[p..], IsDigit);
    var run, tail := s[p..p + d], s[p..];
    SpanMatches(tail, IsDigit);
    assert forall i :: 0 <= i < d ==> run[i] == tail[i];
  }

  /** The longest float-shaped prefix is float-shaped. */
  lemma FloatShapedPrefix(s: string)
    requires 0 < FloatLength(s)
    ensures FloatShaped(s[..FloatLength(s)])
  {
    var n := FloatLength(s);
    var p := SignLength(s);
    var d := Span(s[p..], IsDigit);
    var q := p + d;
    LeadingDigits(s);
    UnsignedPrefix(s, n);
    if q + 1 < |s| && s[q] == '.' && IsDigit(s[q + 1]) {
      var e := Span(s[q + 1..], IsDigit);
      var frac, tail := s[q + 1..n], s[q + 1..];
      SpanMatches(tail, IsDigit);
      assert AllDigits(frac) by {
        assert forall i :: 0 <= i < e ==> frac[i] == tail[i];
      }
      var u := s[p..n];
      assert u[d] == '.' && u[..d] == s[p..q] && u[d + 1..] == frac;
    }
  }

  /** A prefix that is all digits after its sign is no longer than `FloatLength`. */
  lemma DigitsNotLonger(s: string, m: nat)
    requires SignLength(s) < m <= |s| && AllDigits(s[SignLength(s)..m])
    ensures m <= FloatLength(s)
  {
    DigitRun(s, SignLength(s), m);
  }

  /** A prefix with a point between digits after its sign is no longer than `FloatLength`. */
  lemma PointedNotLonger(s: string, m: nat, j: nat)
    requires SignLength(s) <= m <= |s|
    requires var u := s[SignLength(s)..m];
      j < |u| - 1 && u[j] == '.' && AllDigits(u[..j]) && AllDigits(u[j + 1..])
    ensures m <= FloatLength(s)
  {
    var p := SignLength(s);
    var u := s[p..m];
    assert u[..j] == s[p..p + j] && u[j + 1..] == s[p + j + 1..m];
    DigitsUpToPoint(s, p, j);
    assert s[p + j + 1] == s[p + j + 1..m][0];
    DigitRun(s, p + j + 1, m);
  }

  /** Digits from `p` up to a point at `p + j` span exactly `j` characters. */
  lemma DigitsUpToPoint(s: string, p: nat, j: nat)
    requires p + j < |s| && s[p + j] == '.' && AllDigits(s[p..p + j])
    ensures Span(s[p..], IsDigit) == j
  {
    DigitRun(s, p, p + j);
    SpanMatches(s[p..], IsDigit);
    assert s[p..][j] == s[p + j];
  }

  /** No prefix longer than `FloatLength` is float-shaped. */
  lemma FloatNotLonger(s: string, m: nat)
    requires FloatLength(s) < m <= |s|
    ensures !FloatShaped(s[..m])
  {
    var p := SignLength(s);
    UnsignedPrefix(s, m);
    var u := s[p..m];
    if FloatShaped(s[..m]) {
      if AllDigits(u) {
        DigitsNotLonger(s, m);
      } else {
        var j :| 0 <= j < |u| - 1 && u[j] == '.' && AllDigits(u[..j]) && AllDigits(u[j + 1..]);
        PointedNotLonger(s, m, j);
      }
    }
  }

  /** `FloatLength` is the length of the longest float-shaped prefix, 0 when there is none. */
  lemma FloatLongest(s: string)
    ensures 0 < FloatLength(s) ==> FloatShaped(s[..FloatLength(s)])
    ensures forall m :: FloatLength(s) < m <= |s| ==> !FloatShaped(s[..m])
  {
    if 0 < FloatLength(s) {
      FloatShapedPrefix(s);
    }
    forall m | FloatLength(s) < m <= |s| {
      FloatNotLonger(s, m);
    }
  }

  /** Every float-shaped text has a float reading, and every integer-shaped text a signed reading. */
  lemma ShapedTextReads(t: string)
    ensures FloatShaped(t) ==> ParseFloat(t).Some?
    ensures IntegerShaped(t) ==> ParseSigned(t).Some?
  {
    var u := Unsigned(t);
    if FloatShaped(t) {
      assert ParseFloat(t).Some? <==> Magnitude(u).Some?;
      if !AllDigits(u) {
        var j :| 0 <= j < |u| - 1 && u[j] == '.' && AllDigits(u[..j]) && AllDigits(u[j + 1..]);
        assert forall k :: 0 <= k < j ==> u[k] == u[..j][k];
        PointIndexAt(u, j);
      }
    }
  }

  /** The first point of a text whose characters before `j` are not points is at `j`. */
  lemma PointIndexAt(u: string, j: nat)
    requires j < |u| && u[j] == '.' && forall k :: 0 <= k < j ==> u[k] != '.'
    ensures PointIndex(u) == j
  {
  }

  /**
    The scan at a sign, point or digit takes the longest float-shaped prefix,
    and calls it an integer exactly when that prefix is also integer-shaped;
    when no prefix is float-shaped, the one character is an `Error` token.
   */
  lemma ScanNumber(s: string)
    requires 0 < |s| && IsNumberStart(s[0])
    ensures Scan(s).0 in {Error, LiteralInteger, LiteralFloat}
    ensures Scan(s).0 == Error <==> forall m :: 0 < m <= |s| ==> !FloatShaped(s[..m])
    ensures Scan(s).0 == Error ==> Scan(s).1 == 1
    ensures Scan(s).0 != Error ==> FloatShaped(s[..Scan(s).1]) && forall m :: Scan(s).1 < m <= |s| ==> !FloatShaped(s[..m])
    ensures Scan(s).0 != Error ==> (Scan(s).0 == LiteralInteger <==> IntegerShaped(s[..Scan(s).1]))
  {
    NumberScan(s);
    FloatLongest(s);
    IntegerLongest(s);
    var f := FloatLength(s);
    if 0 < f && IntegerShaped(s[..f]) {
      var i := IntegerLength(s);
      if f < i {
        assert FloatShaped(s[..i]);
      }
    }
  }

  /** A signed numeral with a point and at least one digit after it is one float literal. */
  lemma FloatToken(sign: string, i: string, f: string, rest: string)
    requires sign in ["", "+", "-"]
    requires AllDigits(i) && 0 < |f| && AllDigits(f)
    requires rest == [] || !IsDigit(rest[0])
    ensures Lex(sign + i + "." + f + rest) == [Lexeme(LiteralFloat, sign + i + "." + f)] + Lex(rest)
  {
    var s := sign + i + "." + f + rest;
    var n := |sign| + |i| + 1 + |f|;
    FloatLengths(sign, i, f, rest);
    NumberScan(s);
    LexStep(s);
    assert s[..n] == sign + i + "." + f;
    assert s[n..] == rest;
  }

  lemma FloatLengths(sign: string, i: string, f: string, rest: string)
    requires sign in ["", "+", "-"]
    requires AllDigits(i) && 0 < |f| && AllDigits(f)
    requires rest == [] || !IsDigit(rest[0])
    ensures var s := sign + i + "." + f + rest; var n := |sign| + |i| + 1 + |f|;
      IsNumberStart(s[0]) && FloatLength(s) == n && IntegerLength(s) < n
  {
    var lit := sign + i + "." + f;
    var s := lit + rest;
    var p := |sign|;
    var q := p + |i|;
    var n := q + 1 + |f|;
    assert |lit| == n;
    assert SignLength(s) == p && IsNumberStart(s[0]) by {
      if sign == "" {
        assert s[0] == lit[0] == (i + ".")[0];
      } else {
        assert s[0] == sign[0];
      }
    }
    forall k | p <= k < q
      ensures IsDigit(s[k])
    {
      assert s[k] == lit[k] == (sign + i)[k] == i[k - p];
    }
    assert s[q] == lit[q] == (sign + i + ".")[q] == '.';
    forall k | q < k < n
      ensures IsDigit(s[k])
    {
      assert s[k] == lit[k] == f[k - q - 1];
    }
    assert n < |s| ==> s[n] == rest[0];
    FloatLengthAt(s, p, q, n);
  }

  /** The float match read off the positions of the sign, the point and the digit runs. */
  lemma FloatLengthAt(s: string, p: nat, q: nat, n: nat)
    requires SignLength(s) == p <= q && q + 1 < n <= |s|
    requires forall k :: p <= k < q ==> IsDigit(s[k])
    requires s[q] == '.'
    requires forall k :: q < k < n ==> IsDigit(s[k])
    requires n == |s| || !IsDigit(s[n])
    ensures FloatLength(s) == n
    ensures IntegerLength(s) < n
  {
    SpanExact(s[p..], IsDigit, q - p);
    SpanExact(s[q + 1..], IsDigit, n - q - 1);
  }

  /** A span is fixed by where the matching run stops. */
  lemma {:induction false} SpanExact(t: string, p: char -> bool, m: nat)
    requires m <= |t|
    requires forall k :: 0 <= k < m ==> p(t[k])
    requires m == |t| || !p(t[m])
    ensures Span(t, p) == m
  {
    if m > 0 {
      SpanExact(t[1..], p, m - 1);
    }
  }

  /**
    A word of letters and digits followed by a non-word character starts no
    rule definition, unless it is `rule` followed by a space and a letter.
   */
  lemma WordNotDefinition(w: string, rest: string)
    requires forall i :: 0 <= i < |w| ==> IsAlnum(w[i])
    requires rest == [] || !IsAlnum(rest[0])
    requires !(w == "rule" && 1 < |rest| && rest[0] == ' ' && IsLetter(rest[1]))
    ensures var s := w + rest; !(5 < |s| && s[..5] == "rule " && IsLetter(s[5]))
  {
    var s := w + rest;
    if 5 < |s| {
      if 5 <= |w| {
        assert s[4] == w[4];
        assert s[..5][4] != ' ';
      } else if |w| < 4 {
        assert s[|w|] == rest[0];
        assert s[..5][|w|] != "rule "[|w|];
      } else if w != "rule" {
        assert s[..4] == w;
        assert s[..5][..4] != "rule";
      } else {
        assert s[4] == rest[0] && s[5] == rest[1];
      }
    }
  }

  /** The class of a word followed by a non-word character is its keyword, else an invocation. */
  lemma WordToken(w: string, rest: string)
    requires 0 < |w| && IsLetter(w[0]) && forall i :: 0 <= i < |w| ==> IsAlnum(w[i])
    requires rest == [] || !IsAlnum(rest[0])
    requires !(w == "rule" && 1 < |rest| && rest[0] == ' ' && IsLetter(rest[1]))
    ensures Lex(w + rest) == [Lexeme(WordClass(w), w)] + Lex(rest)
  {
    var s := w + rest;
    WordNotDefinition(w, rest);
    SpanConcat(w, rest, IsAlnum);
    assert Span(w, IsAlnum) == |w| by {
      SpanConcat(w, [], IsAlnum);
      assert w + [] == w;
    }
    assert s[0] == w[0];
    assert s[..|w|] == w;
    assert Scan(s) == (WordClass(w), |w|);
    LexStep(s);
    assert s[|w|..] == rest;
  }

  /** A keyword, standing as a whole word, lexes to its keyword token. */
  lemma KeywordToken(t: Token, w: string, rest: string)
    requires Keyword(w) == Some(t)
    requires rest == [] || !IsAlnum(rest[0])
    ensures Lex(w + rest) == [Lexeme(t, w)] + Lex(rest)
  {
    KeywordWord(w);
    WordToken(w, rest);
  }

  /** Every keyword is a word: a letter followed by letters and digits, and not `rule`. */
  lemma KeywordWord(w: string)
    requires Keyword(w).Some?
    ensures 0 < |w| && IsLetter(w[0]) && w != "rule"
    ensures forall i :: 0 <= i < |w| ==> IsAlnum(w[i])
  {
  }

  /** The long and the short spelling of a setting name stand for the same token. */
  lemma KeywordAliases()
    ensures Keyword("maxdepth") == Keyword("md") == Some(MaxDepth)
    ensures Keyword("weight") == Keyword("w") == Some(Weight)
    ensures Keyword("hue") == Keyword("h") == Some(Hue)
    ensures Keyword("brightness") == Keyword("b") == Some(Brightness)
    ensures Keyword("alpha") == Keyword("a") == Some(Alpha)
    ensures Keyword("color") == Keyword("c") == Some(Color)
  {
  }

  /** `rule`, a space and an identifier form one rule-definition token. */
  lemma RuleDefinitionToken(name: string, rest: string)
    requires 0 < |name| && IsLetter(name[0]) && forall i :: 0 <= i < |name| ==> IsAlnum(name[i])
    requires rest == [] || !IsAlnum(rest[0])
    ensures Lex("rule " + name + rest) == [Lexeme(RuleDefinition, "rule " + name)] + Lex(rest)
  {
    var s := "rule " + name + rest;
    var n := 5 + |name|;
    RuleDefinitionScan(name, rest);
    LexStep(s);
    assert s[..n] == "rule " + name;
    assert s[n..] == rest;
  }

  lemma RuleDefinitionScan(name: string, rest: string)
    requires 0 < |name| && IsLetter(name[0]) && forall i :: 0 <= i < |name| ==> IsAlnum(name[i])
    requires rest == [] || !IsAlnum(rest[0])
    ensures var s := "rule " + name + rest; !IsSpace(s[0]) && s[0] != '/' && Scan(s) == (RuleDefinition, 5 + |name|)
  {
    var s := "rule " + name + rest;
    assert s[..5] == "rule " && s[5] == name[0];
    assert s[5..] == name + rest;
    SpanConcat(name, rest, IsAlnum);
    SpanAll(name, IsAlnum);
  }

  /** A character that starts no pattern is one error token. */
  lemma UnmatchedCharacter(c: char, rest: string)
    requires !IsSpace(c) && !IsAlnum(c) && c !in "+-.{}>*/"
    ensures Lex([c] + rest) == [Lexeme(Error, [c])] + Lex(rest)
  {
    var s := [c] + rest;
    assert s[0] == c;
    assert Scan(s) == (Error, 1);
    LexStep(s);
    assert s[..1] == [c];
    assert s[1..] == rest;
  }

  /** A sign or point that starts no number is one error token. */
  lemma StraySignOrPoint(c: char, rest: string)
    requires c in "+-."
    requires rest == [] || (!IsDigit(rest[0]) && !(rest[0] == '.' && 1 < |rest| && IsDigit(rest[1])))
    ensures Lex([c] + rest) == [Lexeme(Error, [c])] + Lex(rest)
  {
    var s := [c] + rest;
    assert s[0] == c;
    assert s[1..] == rest;
    assert s[..1] == [c];
    if 0 < |rest| {
      assert s[1] == rest[0];
      if 1 < |rest| {
        assert s[2] == rest[1];
      }
    }
    assert FloatLength(s) == 0;
    NumberScan(s);
    LexStep(s);
  }

  /** The token class of a bracket or `>`. */
  function Bracket(c: char): Token
    requires c in "{}>"
  {
    if c == '{' then BracketOpen else if c == '}' then BracketClose else MoreThan
  }

  /** A bracket or `>` is a token of its own, whatever follows. */
  lemma BracketToken(c: char, rest: string)
    requires c in "{}>"
    ensures Lex([c] + rest) == [Lexeme(Bracket(c), [c])] + Lex(rest)
  {
    var s := [c] + rest;
    assert s[0] == c;
    assert Scan(s) == (Bracket(c), 1);
    Leading([c], rest, Bracket(c));
  }

  /** `/*` and `*/` are tokens of their own, whatever follows. */
  lemma CommentMarkerTokens(rest: string)
    ensures Lex("/*" + rest) == [Lexeme(MultilineCommentStart, "/*")] + Lex(rest)
    ensures Lex("*/" + rest) == [Lexeme(MultilineCommentEnd, "*/")] + Lex(rest)
  {
    OpenMarker(rest);
    CloseMarker(rest);
  }

  lemma OpenMarker(rest: string)
    ensures Lex("/*" + rest) == [Lexeme(MultilineCommentStart, "/*")] + Lex(rest)
  {
    var s := "/*" + rest;
    assert s[0] == '/' && s[1] == '*';
    Leading("/*", rest, MultilineCommentStart);
  }

  lemma CloseMarker(rest: string)
    ensures Lex("*/" + rest) == [Lexeme(MultilineCommentEnd, "*/")] + Lex(rest)
  {
    var s := "*/" + rest;
    assert s[0] == '*' && s[1] == '/';
    Leading("*/", rest, MultilineCommentEnd);
  }

  /** A `*` not followed by `/` is a multiplication sign. */
  lemma MultiplyToken(rest: string)
    requires rest == [] || rest[0] != '/'
    ensures Lex("*" + rest) == [Lexeme(Multiply, "*")] + Lex(rest)
  {
    var s := "*" + rest;
    assert s[0] == '*';
    if rest != [] {
      assert s[1] == rest[0];
    }
    Leading("*", rest, Multiply);
  }

  /** When the scan at the start of `a + rest` reads exactly `a`, the stream continues with `rest`. */
  lemma Leading(a: string, rest: string, t: Token)
    requires 0 < |a| && !IsSpace(a[0])
    requires !(1 < |a + rest| && (a + rest)[0] == '/' && (a + rest)[1] == '/')
    requires Scan(a + rest) == (t, |a|)
    ensures Lex(a + rest) == [Lexeme(t, a)] + Lex(rest)
  {
    var s := a + rest;
    assert s[0] == a[0];
    LexStep(s);
    assert s[..|a|] == a;
    assert s[|a|..] == rest;
  }

  /** Lexemes written out with one space between neighbours. */
  function Join(ls: seq<Lexeme>): string {
    if ls == [] then "" else if |ls| == 1 then ls[0].slice else ls[0].slice + " " + Join(ls[1..])
  }

  /** A lexeme whose text, lexed on its own, gives back exactly that lexeme. */
  predicate Standalone(l: Lexeme) {
    Lex(l.slice) == [l]
  }

  /**
    No word `rule` is directly followed by a lexeme starting with a letter:
    joined by a space, the two would read as one rule definition.
   */
  predicate Separable(ls: seq<Lexeme>) {
    forall i :: 0 < i < |ls| ==> !(ls[i - 1].slice == "rule" && 0 < |ls[i].slice| && IsLetter(ls[i].slice[0]))
  }

  /**
    Lexing inverts writing out: standalone lexemes joined by spaces lex back
    to the same lexemes, provided no `rule` word precedes a word.
   */
  lemma {:induction false} LexJoin(ls: seq<Lexeme>)
    requires forall l <- ls :: Standalone(l)
    requires Separable(ls)
    ensures Lex(Join(ls)) == ls
  {
    if |ls| == 1 {
      assert Standalone(ls[0]);
    } else if |ls| > 1 {
      var j := Join(ls[1..]);
      assert Join(ls) == ls[0].slice + (" " + j);
      JoinSplit(ls);
      LexJoin(ls[1..]);
      StandaloneExtend(ls[0], " " + j);
      SpacesSkipped(" ", j);
    }
  }

  /** The first lexeme of a joined list, and what the rest of the list still satisfies. */
  lemma JoinSplit(ls: seq<Lexeme>)
    requires 1 < |ls|
    requires forall l <- ls :: Standalone(l)
    requires Separable(ls)
    ensures Standalone(ls[0]) && forall l <- ls[1..] :: Standalone(l)
    ensures Separable(ls[1..])
    ensures 0 < |Join(ls[1..])| && !(ls[0].slice == "rule" && IsLetter(Join(ls[1..])[0]))
  {
    var tail := ls[1..];
    assert forall l <- tail :: l in ls;
    assert Separable(tail) by {
      forall i | 0 < i < |tail|
        ensures !(tail[i - 1].slice == "rule" && 0 < |tail[i].slice| && IsLetter(tail[i].slice[0]))
      {
        assert tail[i - 1] == ls[i] && tail[i] == ls[i + 1];
      }
    }
    assert ls[1] in ls;
    StandaloneNonEmpty(ls[1]);
    var j := Join(tail);
    if |tail| == 1 {
      assert j == ls[1].slice;
    } else {
      assert j == ls[1].slice + " " + Join(tail[1..]);
    }
    assert j[0] == ls[1].slice[0];
  }

  lemma StandaloneNonEmpty(l: Lexeme)
    requires Standalone(l)
    ensures 0 < |l.slice|
  {
    assert l in Lex(l.slice);
  }

  /** A standalone lexeme keeps its reading when whitespace follows it. */
  lemma StandaloneExtend(l: Lexeme, rest: string)
    requires Standalone(l)
    requires rest == [] || IsSpace(rest[0])
    requires !(l.slice == "rule" && 1 < |rest| && IsLetter(rest[1]))
    ensures Lex(l.slice + rest) == [l] + Lex(rest)
  {
    var a := l.slice;
    assert l in Lex(a);
    assert !IsSpace(a[0]) && !(1 < |a| && a[0] == '/' && a[1] == '/');
    LexStep(a);
    assert a[..Scan(a).1] == a;
    ScanExtend(a, rest);
    var s := a + rest;
    assert s[0] == a[0];
    if 1 < |a| {
      assert s[1] == a[1];
    } else if rest != [] {
      assert s[1] == rest[0];
    }
    LexStep(s);
    assert s[..|a|] == a;
    assert s[|a|..] == rest;
  }

  /** A whole-token scan is not extended by following whitespace. */
  lemma ScanExtend(a: string, rest: string)
    requires 0 < |a| && Scan(a).1 == |a|
    requires rest == [] || IsSpace(rest[0])
    requires !(a == "rule" && 1 < |rest| && IsLetter(rest[1]))
    ensures Scan(a + rest) == Scan(a)
  {
    if IsLetter(a[0]) {
      if 5 < |a| && a[..5] == "rule " && IsLetter(a[5]) {
        DefinitionExtend(a, rest);
      } else {
        WordExtend(a, rest);
      }
    } else if IsNumberStart(a[0]) {
      NumberScanExtend(a, rest);
    } else {
      var s := a + rest;
      assert s[0] == a[0];
      if |a| == 1 && rest != [] {
        assert s[1] == rest[0];
      } else if |a| == 2 {
        assert s[1] == a[1];
      }
    }
  }

  lemma DefinitionExtend(a: string, rest: string)
    requires 5 < |a| && a[..5] == "rule " && IsLetter(a[5]) && 5 + Span(a[5..], IsAlnum) == |a|
    requires rest == [] || IsSpace(rest[0])
    ensures Scan(a + rest) == Scan(a) == (RuleDefinition, |a|)
  {
    var s := a + rest;
    assert s[0] == a[0];
    assert s[..5] == a[..5] && s[5] == a[5];
    assert s[5..] == a[5..] + rest;
    SpanConcat(a[5..], rest, IsAlnum);
  }

  lemma WordExtend(a: string, rest: string)
    requires 0 < |a| && IsLetter(a[0]) && Span(a, IsAlnum) == |a|
    requires !(5 < |a| && a[..5] == "rule " && IsLetter(a[5]))
    requires rest == [] || IsSpace(rest[0])
    requires !(a == "rule" && 1 < |rest| && IsLetter(rest[1]))
    ensures Scan(a + rest) == Scan(a) == (WordClass(a), |a|)
  {
    var s := a + rest;
    assert s[0] == a[0];
    SpanConcat(a, rest, IsAlnum);
    SpanMatches(a, IsAlnum);
    WordNotDefinition(a, rest);
    WordScan(a);
    WordScan(s);
    assert s[..|a|] == a;
    assert a[..|a|] == a;
  }

  /** A letter that starts no rule definition starts a word, read up to its last letter or digit. */
  lemma WordScan(s: string)
    requires 0 < |s| && IsLetter(s[0])
    requires !(5 < |s| && s[..5] == "rule " && IsLetter(s[5]))
    ensures Scan(s) == (WordClass(s[..Span(s, IsAlnum)]), Span(s, IsAlnum))
  {
  }

  lemma NumberScanExtend(a: string, rest: string)
    requires 0 < |a| && IsNumberStart(a[0]) && Scan(a).1 == |a|
    requires rest == [] || IsSpace(rest[0])
    ensures Scan(a + rest) == Scan(a)
  {
    var s := a + rest;
    assert s[0] == a[0];
    NumberScan(a);
    NumberScan(s);
    if FloatLength(a) == 0 {
      assert |a| == 1 && !IsDigit(a[0]);
      if rest != [] {
        assert s[1] == rest[0];
      }
      assert FloatLength(s) == 0;
    } else {
      NumberExtend(a, rest);
    }
  }

  /** The number lengths of a string are kept when whitespace follows the match. */
  lemma NumberExtend(a: string, rest: string)
    requires 0 < FloatLength(a) == |a|
    requires rest == [] || IsSpace(rest[0])
    ensures FloatLength(a + rest) == FloatLength(a) && IntegerLength(a + rest) == IntegerLength(a)
  {
    var s := a + rest;
    var p := SignLength(a);
    SignedDigitsExtend(a, rest);
    var q := p + Span(a[p..], IsDigit);
    if q + 1 < |a| && a[q] == '.' && IsDigit(a[q + 1]) {
      assert s[q] == a[q] && s[q + 1] == a[q + 1];
      assert s[q + 1..] == a[q + 1..] + rest;
      DigitsExtend(a[q + 1..], rest);
    } else {
      assert q == |a|;
      if rest != [] {
        assert s[q] == rest[0];
      }
    }
  }

  /** Whitespace after a string changes neither its sign nor the run of digits after the sign. */
  lemma SignedDigitsExtend(a: string, rest: string)
    requires 0 < |a|
    requires rest == [] || IsSpace(rest[0])
    ensures var p := SignLength(a); SignLength(a + rest) == p && (a + rest)[p..] == a[p..] + rest
    ensures var p := SignLength(a); Span((a + rest)[p..], IsDigit) == Span(a[p..], IsDigit)
  {
    var s := a + rest;
    assert s[0] == a[0];
    var p := SignLength(a);
    assert s[p..] == a[p..] + rest;
    DigitsExtend(a[p..], rest);
  }

  /** A run of digits does not continue into whitespace. */
  lemma DigitsExtend(a: string, rest: string)
    requires rest == [] || IsSpace(rest[0])
    ensures Span(a + rest, IsDigit) == Span(a, IsDigit)
  {
    SpanConcat(a, rest, IsDigit);
  }
}
