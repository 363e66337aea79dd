/** Wildcard patterns of access scopes (`apps/api/src/auth/access.service.ts`): the translation of a
    pattern into regular-expression source text, and what that source means. */
module Glob {
  import opened Text

  // ---------------------------------------------------------------- regular expressions

  datatype Atom = Literal(c: char) | Dot | NotChar(c: char)
  datatype Regex = Empty | One(atom: Atom) | Star(body: Regex) | Then(first: Regex, rest: Regex)

  /** One character against one atom; without the `s` flag a dot refuses line terminators. */
  predicate Accepts(a: Atom, c: char) {
    match a
    case Literal(d) => c == d
    case Dot => !IsLineTerminator(c)
    case NotChar(d) => c != d
  }

  /** The text `s`, from its first to its last character (`^...$`), is in the language of `r`. */
  predicate Matches(r: Regex, s: string)
    decreases r, |s|
  {
    match r
    case Empty => s == ""
    case One(a) => |s| == 1 && Accepts(a, s[0])
    case Star(b) => s == "" || exists k :: 0 < k <= |s| && Matches(b, s[..k]) && Matches(r, s[k..])
    case Then(a, b) => exists k :: 0 <= k <= |s| && Matches(a, s[..k]) && Matches(b, s[k..])
  }

  /** The characters that `escapeRegExp` prefixes with a backslash. */
  predicate IsSpecial(c: char) {
    c in ".*+?^${}()|[]\\"
  }

  /** The syntax characters of a regular expression (SyntaxCharacter of ECMA-262). */
  predicate IsSyntaxCharacter(c: char) {
    || c == '^' || c == '$' || c == '\\' || c == '.' || c == '*' || c == '+' || c == '?'
    || c == '(' || c == ')' || c == '[' || c == ']' || c == '{' || c == '}' || c == '|'
  }

  /** Reads one atom at the start of a regular-expression source; `None` on an operator this reader
      does not know, so whatever it accepts means the same in JavaScript. */
  function ReadAtom(src: string): (r: Option<(Atom, nat)>)
    ensures r.Some? ==> 0 < r.value.1 <= |src|
  {
    if src == "" then None
    else if src[0] == '\\' then
      if |src| >= 2 && IsSyntaxCharacter(src[1]) then Some((Literal(src[1]), 2)) else None
    else if src[0] == '[' then
      if |src| >= 4 && src[1] == '^' && !IsSyntaxCharacter(src[2]) && src[3] == ']' then Some((NotChar(src[2]), 4))
      else None
    else if src[0] == '.' then Some((Dot, 1))
    else if IsSyntaxCharacter(src[0]) then None
    else Some((Literal(src[0]), 1))
  }

  /** Reads a whole source: a sequence of atoms, each with an optional `*`. */
  function Read(src: string): Option<Regex>
    decreases |src|
  {
    if src == "" then Some(Empty)
    else
      match ReadAtom(src)
      case None => None
      case Some((atom, n)) =>
        if n < |src| && src[n] == '*' then
          match Read(src[n + 1..])
          case None => None
          case Some(rest) => Some(Then(Star(One(atom)), rest))
        else
          match Read(src[n..])
          case None => None
          case Some(rest) => Some(Then(One(atom), rest))
  }

  // ---------------------------------------------------------------- patterns

  /** What the parts of a pattern stand for: themselves, any run of characters without a line
      terminator, or any run without a slash. */
  datatype Token = Char(c: char) | AnyRun | SegmentRun

  predicate InRun(t: Token, c: char)
    requires !t.Char?
  {
    if t.AnyRun? then !IsLineTerminator(c) else c != '/'
  }

  /** The direct matcher: `s` can be cut into one piece per token. */
  predicate Covers(ts: seq<Token>, s: string) {
    if ts == [] then s == ""
    else if ts[0].Char? then s != "" && s[0] == ts[0].c && Covers(ts[1..], s[1..])
    else exists k :: 0 <= k <= |s| && (forall i :: 0 <= i < k ==> InRun(ts[0], s[i])) && Covers(ts[1..], s[k..])
  }

  /** Path patterns: `**` is any run, a single `*` stays within a segment. */
  function PathTokens(p: string): seq<Token> {
    if p == "" then []
    else if p[0] != '*' then [Char(p[0])] + PathTokens(p[1..])
    else if |p| >= 2 && p[1] == '*' then [AnyRun] + PathTokens(p[2..])
    else [SegmentRun] + PathTokens(p[1..])
  }

  /** Identifier patterns: `*` is any run. */
  function IdentifierTokens(p: string): seq<Token> {
    if p == "" then []
    else [if p[0] == '*' then AnyRun else Char(p[0])] + IdentifierTokens(p[1..])
  }

  // ---------------------------------------------------------------- translation to source text

  function EscapeChar(c: char): string {
    if IsSpecial(c) then ['\\', c] else [c]
  }

  /** `escapeRegExp`. */
  function EscapeRegExp(s: string): string {
    if s == "" then "" else EscapeChar(s[0]) + EscapeRegExp(s[1..])
  }

  function TokenSource(t: Token): string {
    match t
    case Char(c) => EscapeChar(c)
    case AnyRun => ".*"
    case SegmentRun => "[^/]*"
  }

  function Source(ts: seq<Token>): string {
    if ts == [] then "" else TokenSource(ts[0]) + Source(ts[1..])
  }

  function PathSource(p: string): string {
    Source(PathTokens(p))
  }

  lemma PathSourceStep(p: string)
    ensures PathSource(p) ==
            if p == "" then ""
            else if p[0] != '*' then EscapeRegExp([p[0]]) + PathSource(p[1..])
            else if |p| >= 2 && p[1] == '*' then ".*" + PathSource(p[2..])
            else "[^/]*" + PathSource(p[1..])
  {}

  /** `wildcardPathToRegExpSource`: the loop with its look-ahead emits the source of the tokens. */
  method WildcardPathToRegExpSource(pattern: string) returns (source: string)
    ensures source == PathSource(pattern)
  {
    hide PathSource, EscapeRegExp;
    source := "";
    var i := 0;
    assert pattern[0..] == pattern;
    while i < |pattern|
      invariant 0 <= i <= |pattern|
      invariant source + PathSource(pattern[i..]) == PathSource(pattern)
    {
      PathSourceStep(pattern[i..]);
      ghost var next := pattern[i + 1..];
      assert pattern[i..][1..] == next;
      var ch := pattern[i];
      if ch == '*' {
        if i + 1 < |pattern| && pattern[i + 1] == '*' {
          assert pattern[i..][2..] == pattern[i + 2..];
          assert source + (".*" + PathSource(pattern[i + 2..])) == (source + ".*") + PathSource(pattern[i + 2..]);
          source := source + ".*";
          i := i + 1;
        } else {
          assert source + ("[^/]*" + PathSource(next)) == (source + "[^/]*") + PathSource(next);
          source := source + "[^/]*";
        }
      } else {
        assert source + (EscapeRegExp([ch]) + PathSource(next)) == (source + EscapeRegExp([ch])) + PathSource(next);
        source := source + EscapeRegExp([ch]);
      }
      i := i + 1;
    }
    PathSourceStep(pattern[i..]);
  }

  /** `pattern.split('*')`. */
  function SplitStar(p: string): (parts: seq<string>)
    ensures parts != []
  {
    if p == "" then [""]
    else
      var rest := SplitStar(p[1..]);
      if p[0] == '*' then [""] + rest else [[p[0]] + rest[0]] + rest[1..]
  }

  function EscapeAll(parts: seq<string>): seq<string> {
    if parts == [] then [] else [EscapeRegExp(parts[0])] + EscapeAll(parts[1..])
  }

  /** The source text of `matchesIdentifierPattern`: split at stars, escape the pieces, join with `.*`. */
  function IdentifierSource(p: string): string {
    Join(EscapeAll(SplitStar(p)), ".*")
  }

  /** Splitting, escaping and joining is the character-by-character translation. */
  lemma {:induction false} IdentifierSourceIsTokenwise(p: string)
    ensures IdentifierSource(p) == Source(IdentifierTokens(p))
  {
    if p == "" {
      assert EscapeAll([""]) == [EscapeRegExp("")] + EscapeAll([]) == [""];
    } else {
      IdentifierSourceIsTokenwise(p[1..]);
      var rest := SplitStar(p[1..]);
      var e := EscapeAll(rest);
      if p[0] == '*' {
        assert EscapeAll([""] + rest) == [EscapeRegExp("")] + EscapeAll(([""] + rest)[1..]) == [""] + e;
        assert Join([""] + e, ".*") == "" + ".*" + Join(([""] + e)[1..], ".*") == ".*" + Join(e, ".*");
      } else {
        var head := [p[0]] + rest[0];
        assert head[1..] == rest[0];
        assert EscapeRegExp(head) == EscapeChar(p[0]) + EscapeRegExp(rest[0]);
        var parts := [head] + rest[1..];
        assert parts[1..] == rest[1..];
        assert EscapeAll(parts) == [EscapeRegExp(head)] + EscapeAll(rest[1..]);
        assert EscapeAll(parts) == [EscapeChar(p[0]) + e[0]] + e[1..];
        JoinHead(EscapeChar(p[0]), e, ".*");
      }
    }
  }

  lemma JoinHead(pre: string, parts: seq<string>, sep: string)
    requires parts != []
    ensures Join([pre + parts[0]] + parts[1..], sep) == pre + Join(parts, sep)
  {}

  // ---------------------------------------------------------------- the translation keeps the meaning

  function TokenRegex(t: Token): Regex {
    match t
    case Char(c) => One(Literal(c))
    case AnyRun => Star(One(Dot))
    case SegmentRun => Star(One(NotChar('/')))
  }

  function TokensRegex(ts: seq<Token>): Regex {
    if ts == [] then Empty else Then(TokenRegex(ts[0]), TokensRegex(ts[1..]))
  }

  lemma SourceNeverStartsWithStar(ts: seq<Token>)
    ensures Source(ts) != "" ==> Source(ts)[0] != '*'
  {}

  /** The translation escapes exactly the syntax characters. */
  lemma EscapesAreComplete(c: char)
    ensures IsSpecial(c) <==> IsSyntaxCharacter(c)
  {}

  lemma ReadAtomOfEscape(c: char, rest: string)
    ensures ReadAtom(EscapeChar(c) + rest) == Some((Literal(c), |EscapeChar(c)|))
  {
    hide IsSpecial, IsSyntaxCharacter;
    EscapesAreComplete(c);
    EscapesAreComplete('\\');
    BracketsAreSyntax();
  }

  lemma BracketsAreSyntax()
    ensures IsSyntaxCharacter('\\') && IsSyntaxCharacter('[') && IsSyntaxCharacter('.')
    ensures !IsSyntaxCharacter('/')
  {}

  lemma ReadStep(src: string, atom: Atom, n: nat)
    requires ReadAtom(src) == Some((atom, n)) && n <= |src|
    ensures n == |src| || src[n] != '*' ==>
              Read(src) == match Read(src[n..]) case None => None case Some(rest) => Some(Then(One(atom), rest))
    ensures n < |src| && src[n] == '*' ==>
              Read(src) == match Read(src[n + 1..])
                           case None => None
                           case Some(rest) => Some(Then(Star(One(atom)), rest))
  {
    hide ReadAtom;
  }

  lemma ReadRuns(rest: string)
    ensures ReadAtom(".*" + rest) == Some((Dot, 1)) && ReadAtom("[^/]*" + rest) == Some((NotChar('/'), 4))
  {
    hide IsSyntaxCharacter;
    BracketsAreSyntax();
  }

  /** The reader understands every source the translation emits. */
  lemma {:induction false} ReadOfSource(ts: seq<Token>)
    ensures Read(Source(ts)) == Some(TokensRegex(ts))
  {
    hide Read, ReadAtom, EscapeChar;
    if ts == [] {
      assert Read("") == Some(Empty) by { ReadNothing(); }
    } else {
      var t, rest := TokenSource(ts[0]), Source(ts[1..]);
      var src := t + rest;
      ReadOfSource(ts[1..]);
      SourceNeverStartsWithStar(ts[1..]);
      match ts[0] {
        case Char(c) =>
          ReadAtomOfEscape(c, rest);
          ReadStep(src, Literal(c), |t|);
          assert src[|t|..] == rest;
        case AnyRun =>
          ReadRuns(rest);
          ReadStep(src, Dot, 1);
          assert src[1] == '*' && src[2..] == rest;
        case SegmentRun =>
          ReadRuns(rest);
          ReadStep(src, NotChar('/'), 4);
          assert src[4] == '*' && src[5..] == rest;
      }
    }
  }

  lemma ReadNothing()
    ensures Read("") == Some(Empty)
  {}

  /** A starred atom matches exactly the runs of characters it accepts. */
  lemma {:induction false} StarIsRun(a: Atom, s: string)
    ensures Matches(Star(One(a)), s) <==> forall i :: 0 <= i < |s| ==> Accepts(a, s[i])
  {
    if s != "" {
      StarIsRun(a, s[1..]);
      assert s[..1][0] == s[0];
      if forall i :: 0 <= i < |s| ==> Accepts(a, s[i]) {
        assert Matches(One(a), s[..1]) && Matches(Star(One(a)), s[1..]);
      }
      if Matches(Star(One(a)), s) {
        var k :| 0 < k <= |s| && Matches(One(a), s[..k]) && Matches(Star(One(a)), s[k..]);
        assert k == 1;
        assert forall i :: 1 <= i < |s| ==> s[i] == s[1..][i - 1];
      }
    }
  }

  lemma TokenRegexIs(t: Token, s: string)
    ensures Matches(TokenRegex(t), s) <==>
            if t.Char? then s == [t.c] else forall i :: 0 <= i < |s| ==> InRun(t, s[i])
  {
    match t
    case Char(c) =>
    case AnyRun => StarIsRun(Dot, s);
    case SegmentRun => StarIsRun(NotChar('/'), s);
  }

  lemma {:induction false} TokensRegexIs(ts: seq<Token>, s: string)
    ensures Matches(TokensRegex(ts), s) <==> Covers(ts, s)
    decreases |ts|
  {
    if ts != [] {
      forall k | 0 <= k <= |s|
        ensures Matches(TokenRegex(ts[0]), s[..k]) <==>
                if ts[0].Char? then s[..k] == [ts[0].c] else forall i :: 0 <= i < k ==> InRun(ts[0], s[i])
        ensures Matches(TokensRegex(ts[1..]), s[k..]) <==> Covers(ts[1..], s[k..])
      {
        TokenRegexIs(ts[0], s[..k]);
        TokensRegexIs(ts[1..], s[k..]);
      }
      if ts[0].Char? && s != "" && s[0] == ts[0].c {
        assert s[..1] == [ts[0].c];
      }
    }
  }

  /** For every path pattern, the emitted source reads as a regular expression that accepts exactly
      the texts the pattern covers. */
  lemma PathPatternKeepsMeaning(p: string, s: string)
    ensures var r := Read(PathSource(p));
            r.Some? && (Matches(r.value, s) <==> Covers(PathTokens(p), s))
  {
    ReadOfSource(PathTokens(p));
    TokensRegexIs(PathTokens(p), s);
  }

  /** The same for identifier patterns, through split, escape and join. */
  lemma IdentifierPatternKeepsMeaning(p: string, s: string)
    ensures var r := Read(IdentifierSource(p));
            r.Some? && (Matches(r.value, s) <==> Covers(IdentifierTokens(p), s))
  {
    IdentifierSourceIsTokenwise(p);
    ReadOfSource(IdentifierTokens(p));
    TokensRegexIs(IdentifierTokens(p), s);
  }

  /** `new RegExp("^" + source + "$").test(value)`; false on a source outside the reader's subset. */
  predicate Test(source: string, value: string) {
    var r := Read(source);
    r.Some? && Matches(r.value, value)
  }

  // ---------------------------------------------------------------- laws of the compiled patterns

  lemma {:induction false} CoversJoin(ts: seq<Token>, us: seq<Token>, a: string, b: string)
    requires Covers(ts, a) && Covers(us, b)
    ensures Covers(ts + us, a + b)
  {
    if ts == [] {
      assert ts + us == us && a + b == b;
    } else {
      assert (ts + us)[1..] == ts[1..] + us;
      if ts[0].Char? {
        CoversJoin(ts[1..], us, a[1..], b);
        assert (a + b)[1..] == a[1..] + b;
      } else {
        var k :| 0 <= k <= |a| && (forall i :: 0 <= i < k ==> InRun(ts[0], a[i])) && Covers(ts[1..], a[k..]);
        CoversJoin(ts[1..], us, a[k..], b);
        assert (a + b)[k..] == a[k..] + b;
        assert forall i :: 0 <= i < k ==> (a + b)[i] == a[i];
      }
    }
  }

  lemma CoversRun(ts: seq<Token>, s: string, k: nat)
    requires ts != [] && !ts[0].Char? && k <= |s|
    requires (forall i :: 0 <= i < k ==> InRun(ts[0], s[i])) && Covers(ts[1..], s[k..])
    ensures Covers(ts, s)
  {}

  lemma CoversHead(ts: seq<Token>, s: string) returns (k: nat)
    requires ts != [] && Covers(ts, s)
    ensures k <= |s| && Covers(ts[1..], s[k..])
    ensures if ts[0].Char? then k == 1 && s[0] == ts[0].c else forall i :: 0 <= i < k ==> InRun(ts[0], s[i])
  {
    if ts[0].Char? {
      k := 1;
    } else {
      k :| 0 <= k <= |s| && (forall i :: 0 <= i < k ==> InRun(ts[0], s[i])) && Covers(ts[1..], s[k..]);
    }
  }

  lemma CoversCons(ts: seq<Token>, s: string, k: nat)
    requires ts != [] && k <= |s| && Covers(ts[1..], s[k..])
    requires if ts[0].Char? then k == 1 && s[0] == ts[0].c else forall i :: 0 <= i < k ==> InRun(ts[0], s[i])
    ensures Covers(ts, s)
  {
    if !ts[0].Char? { CoversRun(ts, s, k); }
  }

  lemma NothingCovers()
    ensures Covers([], "")
  {}

  lemma PartsOf(s: string, k: nat, a: string, b: string)
    requires k <= |s| && s[k..] == a + b
    ensures s == (s[..k] + a) + b && (s[..k] + a)[k..] == a
    ensures forall i :: 0 <= i < k ==> (s[..k] + a)[i] == s[i]
  {}

  lemma {:induction false} CoversSplit(ts: seq<Token>, us: seq<Token>, s: string) returns (a: string, b: string)
    requires Covers(ts + us, s)
    ensures s == a + b && Covers(ts, a) && Covers(us, b)
    decreases |ts|
  {
    hide Covers, InRun;
    if ts == [] {
      a, b := "", s;
      assert ts + us == us;
      NothingCovers();
    } else {
      var k := HeadOfConcat(ts, us, s);
      a, b := CoversSplit(ts[1..], us, s[k..]);
      PartsOf(s, k, a, b);
      CoversCons(ts, s[..k] + a, k);
      a := s[..k] + a;
    }
  }

  lemma HeadOfConcat(ts: seq<Token>, us: seq<Token>, s: string) returns (k: nat)
    requires ts != [] && Covers(ts + us, s)
    ensures k <= |s| && Covers(ts[1..] + us, s[k..])
    ensures if ts[0].Char? then k == 1 && s[0] == ts[0].c else forall i :: 0 <= i < k ==> InRun(ts[0], s[i])
  {
    hide Covers, InRun;
    var all := ts + us;
    assert all[0] == ts[0] && all[1..] == ts[1..] + us;
    k := CoversHead(all, s);
  }

  lemma PathTokensStep(p: string)
    ensures PathTokens(p) ==
            if p == "" then []
            else if p[0] != '*' then [Char(p[0])] + PathTokens(p[1..])
            else if |p| >= 2 && p[1] == '*' then [AnyRun] + PathTokens(p[2..])
            else [SegmentRun] + PathTokens(p[1..])
  {}

  lemma {:induction false} PathTokensConcat(p: string, q: string)
    requires p == "" || q == "" || p[|p| - 1] != '*' || q[0] != '*'
    ensures PathTokens(p + q) == PathTokens(p) + PathTokens(q)
  {
    hide PathTokens;
    var all := p + q;
    PathTokensStep(p);
    PathTokensStep(all);
    if p == "" {
      assert all == q;
    } else {
      var double := p[0] == '*' && |p| >= 2 && p[1] == '*';
      var k := if double then 2 else 1;
      var t := if double then AnyRun else if p[0] == '*' then SegmentRun else Char(p[0]);
      TailOfConcat(p, q, k);
      PathTokensConcat(p[k..], q);
      TokensAssociate(t, PathTokens(p[k..]), PathTokens(q));
    }
  }

  lemma TailOfConcat(p: string, q: string, k: nat)
    requires k <= |p|
    ensures (p + q)[k..] == p[k..] + q && forall i :: 0 <= i < |p| ==> (p + q)[i] == p[i]
  {}

  lemma TokensAssociate(t: Token, a: seq<Token>, b: seq<Token>)
    ensures [t] + (a + b) == ([t] + a) + b
  {}

  lemma {:induction false} IdentifierTokensConcat(p: string, q: string)
    ensures IdentifierTokens(p + q) == IdentifierTokens(p) + IdentifierTokens(q)
  {
    if p == "" {
      assert p + q == q;
    } else {
      assert (p + q)[1..] == p[1..] + q;
      IdentifierTokensConcat(p[1..], q);
    }
  }

  /** A text is accepted by a pattern written in two parts exactly when it has a part for each. */
  ghost predicate InTwoParts(first: string, second: string, s: string) {
    exists k :: 0 <= k <= |s| && Test(first, s[..k]) && Test(second, s[k..])
  }

  /** Path patterns are compositional, as long as no `**` is cut in two. */
  lemma PathPatternOfParts(p: string, q: string, s: string)
    requires p == "" || q == "" || p[|p| - 1] != '*' || q[0] != '*'
    ensures Test(PathSource(p + q), s) <==> InTwoParts(PathSource(p), PathSource(q), s)
  {
    hide Covers, PathTokens, PathSource, Test;
    PathTokensConcat(p, q);
    TestOfPath(p + q, s);
    forall k | 0 <= k <= |s|
      ensures Test(PathSource(p), s[..k]) && Test(PathSource(q), s[k..]) <==>
              Covers(PathTokens(p), s[..k]) && Covers(PathTokens(q), s[k..])
    {
      TestOfPath(p, s[..k]);
      TestOfPath(q, s[k..]);
    }
    CoversOfParts(PathTokens(p), PathTokens(q), s);
  }

  lemma CoversOfParts(ts: seq<Token>, us: seq<Token>, s: string)
    ensures Covers(ts + us, s) <==> exists k :: 0 <= k <= |s| && Covers(ts, s[..k]) && Covers(us, s[k..])
  {
    hide Covers;
    if Covers(ts + us, s) {
      var a, b := CoversSplit(ts, us, s);
      assert s[..|a|] == a && s[|a|..] == b;
    }
    if k :| 0 <= k <= |s| && Covers(ts, s[..k]) && Covers(us, s[k..]) {
      CoversJoin(ts, us, s[..k], s[k..]);
      assert s[..k] + s[k..] == s;
    }
  }

  lemma TestOfPath(p: string, s: string)
    ensures Test(PathSource(p), s) <==> Covers(PathTokens(p), s)
  {
    PathPatternKeepsMeaning(p, s);
  }

  lemma TestOfIdentifier(p: string, s: string)
    ensures Test(IdentifierSource(p), s) <==> Covers(IdentifierTokens(p), s)
  {
    IdentifierPatternKeepsMeaning(p, s);
  }

  /** Identifier patterns are compositional. */
  lemma IdentifierPatternOfParts(p: string, q: string, s: string)
    ensures Test(IdentifierSource(p + q), s) <==> InTwoParts(IdentifierSource(p), IdentifierSource(q), s)
  {
    hide Covers, IdentifierTokens, IdentifierSource, Test;
    IdentifierTokensConcat(p, q);
    TestOfIdentifier(p + q, s);
    forall k | 0 <= k <= |s|
      ensures Test(IdentifierSource(p), s[..k]) && Test(IdentifierSource(q), s[k..]) <==>
              Covers(IdentifierTokens(p), s[..k]) && Covers(IdentifierTokens(q), s[k..])
    {
      TestOfIdentifier(p, s[..k]);
      TestOfIdentifier(q, s[k..]);
    }
    CoversOfParts(IdentifierTokens(p), IdentifierTokens(q), s);
  }

  predicate OnOneLine(s: string) {
    forall i :: 0 <= i < |s| ==> !IsLineTerminator(s[i])
  }

  lemma CoversOneRun(t: Token, s: string)
    requires !t.Char?
    ensures Covers([t], s) <==> forall i :: 0 <= i < |s| ==> InRun(t, s[i])
  {
    var ts := [t];
    assert ts[1..] == [];
    if forall i :: 0 <= i < |s| ==> InRun(t, s[i]) {
      assert s[|s|..] == "" && Covers(ts[1..], s[|s|..]);
    }
    if Covers(ts, s) {
      var k :| 0 <= k <= |s| && (forall i :: 0 <= i < k ==> InRun(ts[0], s[i])) && Covers(ts[1..], s[k..]);
      assert k == |s|;
    }
  }

  /** The smallest path patterns: with `PathPatternOfParts` they decide every pattern. `*` stands for any
      run without a slash, `**` for any run without a line terminator, all else for itself. */
  lemma SmallestPathPatterns(c: char, s: string)
    ensures Test(PathSource(""), s) <==> s == ""
    ensures c != '*' ==> (Test(PathSource([c]), s) <==> s == [c])
    ensures Test(PathSource("*"), s) <==> '/' !in s
    ensures Test(PathSource("**"), s) <==> OnOneLine(s)
  {
    hide PathSource, Test;
    TestOfPath("", s);
    TestOfPath([c], s);
    TestOfPath("*", s);
    TestOfPath("**", s);
    CoversOneRun(SegmentRun, s);
    CoversOneRun(AnyRun, s);
    assert "*"[1..] == "" && "**"[2..] == "" && [c][1..] == "";
    assert PathTokens("*") == [SegmentRun] && PathTokens("**") == [AnyRun];
    assert c != '*' ==> PathTokens([c]) == [Char(c)];
    assert Covers([Char(c)], s) <==> s == [c] by { assert [Char(c)][1..] == []; }
    assert '/' !in s <==> forall i :: 0 <= i < |s| ==> InRun(SegmentRun, s[i]);
  }

  lemma SmallestIdentifierPatterns(c: char, s: string)
    ensures Test(IdentifierSource(""), s) <==> s == ""
    ensures c != '*' ==> (Test(IdentifierSource([c]), s) <==> s == [c])
    ensures Test(IdentifierSource("*"), s) <==> OnOneLine(s)
  {
    hide IdentifierSource, Test;
    TestOfIdentifier("", s);
    TestOfIdentifier([c], s);
    TestOfIdentifier("*", s);
    CoversOneRun(AnyRun, s);
    assert "*"[1..] == "" && [c][1..] == "";
    assert IdentifierTokens("*") == [AnyRun];
    assert c != '*' ==> IdentifierTokens([c]) == [Char(c)];
    assert Covers([Char(c)], s) <==> s == [c] by { assert [Char(c)][1..] == []; }
  }
}
