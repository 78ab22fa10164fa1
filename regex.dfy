/** The fragment of ECMAScript regular expressions that the recruitment form's
    checks are written in: a pattern anchored at both ends (`^...$`, no `m`
    flag), made of literal characters and one-or-more repetitions of a
    character class. `Matches` is what `RegExp.prototype.test` answers for
    such a pattern. */
module JsRegex {

  /** One entry of a `[...]` character class. `Digit`, `Word` and `Space` are
      the class escapes `\d`, `\w` and `\s` (section 22.2.2.9 of ECMA-262). */
  datatype ClassItem =
    | Range(lo: char, hi: char)
    | Single(c: char)
    | Digit
    | Word
    | Space

  type CharClass = seq<ClassItem>

  /** A pattern term: a literal character (`\.` included) or `[class]+`. */
  datatype Term = Lit(c: char) | Plus(cls: CharClass)

  /** A pattern, understood as anchored at both ends. */
  type Pattern = seq<Term>

  predicate IsAsciiDigit(c: char) { '0' <= c <= '9' }
  predicate IsAsciiUpper(c: char) { 'A' <= c <= 'Z' }
  predicate IsAsciiLower(c: char) { 'a' <= c <= 'z' }
  predicate IsAsciiLetter(c: char) { IsAsciiUpper(c) || IsAsciiLower(c) }

  /** `\w` without the `u` and `i` flags: `[A-Za-z0-9_]`. */
  predicate IsWordChar(c: char) { IsAsciiLetter(c) || IsAsciiDigit(c) || c == '_' }

  /** `\s`: the WhiteSpace and LineTerminator code points of ECMA-262
      (TAB, VT, FF, SP, NBSP, ZWNBSP, the Zs category, LF, CR, LS, PS). */
  predicate IsJsWhiteSpace(c: char) {
    c == '\t' || c == '\n' || c == '\U{000B}' || c == '\U{000C}' || c == '\r'
    || c == ' ' || c == '\U{00A0}' || c == '\U{1680}'
    || ('\U{2000}' <= c <= '\U{200A}')
    || c == '\U{2028}' || c == '\U{2029}' || c == '\U{202F}' || c == '\U{205F}'
    || c == '\U{3000}' || c == '\U{FEFF}'
  }

  predicate ItemHas(item: ClassItem, c: char) {
    match item
    case Range(lo, hi) => lo <= c <= hi
    case Single(d) => c == d
    case Digit => IsAsciiDigit(c)
    case Word => IsWordChar(c)
    case Space => IsJsWhiteSpace(c)
  }

  /** A class matches a character when one of its entries does. */
  predicate ClassHas(cls: CharClass, c: char)
  {
    if cls == [] then false else ItemHas(cls[0], c) || ClassHas(cls[1..], c)
  }

  /** Every character of `s` is in `cls`. */
  predicate AllIn(cls: CharClass, s: seq<char>) {
    forall i :: 0 <= i < |s| ==> ClassHas(cls, s[i])
  }

  /** The pattern matching exactly the literal text `w` (`srmist\.edu\.in`). */
  function Literal(w: string): (p: Pattern)
    ensures |p| == |w|
    ensures forall i :: 0 <= i < |w| ==> p[i] == Lit(w[i])
  {
    seq(|w|, i requires 0 <= i < |w| => Lit(w[i]))
  }

  /** Whether the anchored pattern `p` matches the whole of `s`; a `[class]+`
      term may stop after any of its characters (the engine backtracks). */
  predicate Matches(p: Pattern, s: seq<char>)
    decreases |s|
  {
    if p == [] then s == []
    else if s == [] then false
    else match p[0]
      case Lit(c) => s[0] == c && Matches(p[1..], s[1..])
      case Plus(cls) =>
        ClassHas(cls, s[0]) && (Matches(p[1..], s[1..]) || Matches(p, s[1..]))
  }

  /** `^[cls]+$` accepts exactly the non-empty strings drawn from `cls`. */
  lemma {:induction false} PlusAloneMatches(cls: CharClass, s: seq<char>)
    ensures Matches([Plus(cls)], s) <==> s != [] && AllIn(cls, s)
    decreases |s|
  {
    if s != [] {
      var p := [Plus(cls)];
      assert p[1..] == [];
      if |s| > 1 {
        PlusAloneMatches(cls, s[1..]);
        assert AllIn(cls, s) <==> ClassHas(cls, s[0]) && AllIn(cls, s[1..]) by {
          if ClassHas(cls, s[0]) && AllIn(cls, s[1..]) {
            forall i | 0 <= i < |s| ensures ClassHas(cls, s[i]) {
              if i > 0 { assert s[i] == s[1..][i - 1]; }
            }
          }
        }
      }
    }
  }

  /** A literal pattern matches exactly its own text. */
  lemma {:induction false} LiteralMatches(w: string, s: seq<char>)
    ensures Matches(Literal(w), s) <==> s == w
    decreases |w|
  {
    if w != [] && s != [] {
      var p := Literal(w);
      assert p[1..] == Literal(w[1..]);
      LiteralMatches(w[1..], s[1..]);
      if s[0] == w[0] && s[1..] == w[1..] {
        assert s == [s[0]] + s[1..] && w == [w[0]] + w[1..];
      }
    }
  }

  /** `^[cls]+w$` for a literal `w`: the text must end in `w` and what comes
      before it must be non-empty and drawn from `cls`. Since `w` has a fixed
      length, the split point is determined: `|s| - |w|`. */
  lemma {:induction false} PlusThenLiteralMatches(cls: CharClass, w: string, s: seq<char>)
    ensures Matches([Plus(cls)] + Literal(w), s)
        <==> |s| > |w| && s[|s| - |w|..] == w && AllIn(cls, s[..|s| - |w|])
    decreases |s|
  {
    var p := [Plus(cls)] + Literal(w);
    if s != [] {
      var t := s[1..];
      assert p[1..] == Literal(w);
      LiteralMatches(w, t);
      PlusThenLiteralMatches(cls, w, t);
      assert Matches(p, s) <==> ClassHas(cls, s[0]) && (t == w || Matches(p, t));
      if |t| == |w| {
        assert s[..|s| - |w|] == [s[0]];
        assert s[|s| - |w|..] == t;
      } else if |t| > |w| {
        assert s[|s| - |w|..] == t[|t| - |w|..];
        var x, y := s[..|s| - |w|], t[..|t| - |w|];
        assert x == [s[0]] + y;
        assert AllIn(cls, x) <==> ClassHas(cls, s[0]) && AllIn(cls, y) by {
          if ClassHas(cls, s[0]) && AllIn(cls, y) {
            forall i | 0 <= i < |x| ensures ClassHas(cls, x[i]) {
              if i > 0 { assert x[i] == y[i - 1]; }
            }
          }
          if AllIn(cls, x) {
            assert x[0] == s[0];
            forall i | 0 <= i < |y| ensures ClassHas(cls, y[i]) {
              assert y[i] == x[i + 1];
            }
          }
        }
        assert t != w;
      }
    }
  }
}
