/** Substring search through SQL `LIKE` (`apps/api/src/agent-memory/agent-memory.service.ts`). */
module Like {
  import opened Text

  // ---------------------------------------------------------------- escaping

  /** `value.replace(/c/g, '\\c')`: a backslash before every occurrence of `c`. */
  function Prefix(c: char, value: string): string {
    if value == "" then ""
    else (if value[0] == c then ['\\', c] else [value[0]]) + Prefix(c, value[1..])
  }

  /** `escapeLikePattern`: three replaces, one after the other. */
  function EscapeLikePattern(value: string): string {
    Prefix('_', Prefix('%', Prefix('\\', value)))
  }

  predicate IsSpecial(c: char) {
    c == '\\' || c == '%' || c == '_'
  }

  /** One simultaneous pass. */
  function Escape(value: string): string {
    if value == "" then ""
    else (if IsSpecial(value[0]) then ['\\', value[0]] else [value[0]]) + Escape(value[1..])
  }

  lemma {:induction false} PrefixConcat(c: char, a: string, b: string)
    ensures Prefix(c, a + b) == Prefix(c, a) + Prefix(c, b)
  {
    if a == "" {
      assert a + b == b;
    } else {
      assert (a + b)[1..] == a[1..] + b;
      PrefixConcat(c, a[1..], b);
    }
  }

  lemma PrefixOfTwo(c: char, a: char, b: char)
    ensures Prefix(c, [a]) == if a == c then ['\\', c] else [a]
    ensures Prefix(c, [a, b]) == (if a == c then ['\\', c] else [a]) + (if b == c then ['\\', c] else [b])
  {
    assert [a][1..] == "" && [a, b][1..] == [b] && [b][1..] == "";
  }

  /** The order of the replaces is right: together they are the simultaneous escape, because the
      backslash is done first and the later two add backslashes that are not escaped again. */
  lemma {:induction false} SequentialIsSimultaneous(value: string)
    ensures EscapeLikePattern(value) == Escape(value)
  {
    if value != "" {
      var c, rest := value[0], value[1..];
      SequentialIsSimultaneous(rest);
      var head := if c == '\\' then ['\\', '\\'] else [c];
      var p1, p2 := Prefix('\\', rest), Prefix('%', Prefix('\\', rest));
      assert Prefix('\\', value) == head + p1;
      PrefixConcat('%', head, p1);
      PrefixOfTwo('%', c, '\\');
      PrefixOfTwo('%', '\\', '\\');
      var head2 := if c == '\\' then ['\\', '\\'] else if c == '%' then ['\\', '%'] else [c];
      assert Prefix('%', head) == head2;
      PrefixConcat('_', head2, p2);
      PrefixOfTwo('_', c, c);
      PrefixOfTwo('_', '\\', '\\');
      PrefixOfTwo('_', '\\', '%');
    }
  }

  // ---------------------------------------------------------------- LIKE

  /** `text LIKE pattern` with backslash as escape character. A lone backslash at the end of a
      pattern, which the database rejects, matches nothing here. */
  predicate Matches(pattern: string, text: string)
    decreases |pattern|
  {
    if pattern == "" then text == ""
    else if pattern[0] == '\\' then
      |pattern| >= 2 && text != "" && text[0] == pattern[1] && Matches(pattern[2..], text[1..])
    else if pattern[0] == '%' then exists k :: 0 <= k <= |text| && Matches(pattern[1..], text[k..])
    else if pattern[0] == '_' then text != "" && Matches(pattern[1..], text[1..])
    else text != "" && text[0] == pattern[0] && Matches(pattern[1..], text[1..])
  }

  predicate IsSubstring(q: string, text: string) {
    exists i :: 0 <= i <= |text| && q <= text[i..]
  }

  lemma PercentMatchesAll(text: string)
    ensures Matches("%", text)
  {
    assert "%"[1..] == "" && text[|text|..] == "";
    assert Matches("%"[1..], text[|text|..]);
  }

  lemma {:induction false} EscapedIsPrefix(q: string, text: string)
    ensures Matches(Escape(q) + "%", text) <==> q <= text
    decreases |q|
  {
    var pattern := Escape(q) + "%";
    if q == "" {
      assert pattern == "%";
      PercentMatchesAll(text);
    } else {
      var c := q[0];
      var rest := Escape(q[1..]) + "%";
      if IsSpecial(c) {
        assert pattern == ['\\', c] + rest;
        assert pattern[2..] == rest;
      } else {
        assert pattern == [c] + rest;
        assert pattern[1..] == rest;
      }
      if text != "" {
        EscapedIsPrefix(q[1..], text[1..]);
        assert q == [c] + q[1..] && text == [text[0]] + text[1..];
      }
    }
  }

  /** `text LIKE '%' + escape(q) + '%'` is true exactly when `q` occurs in `text`. */
  lemma EscapedLikeIsSubstring(q: string, text: string)
    ensures Matches("%" + EscapeLikePattern(q) + "%", text) <==> IsSubstring(q, text)
  {
    SequentialIsSimultaneous(q);
    var rest := Escape(q) + "%";
    var pattern := "%" + EscapeLikePattern(q) + "%";
    assert pattern == "%" + rest && pattern[1..] == rest;
    forall k | 0 <= k <= |text|
      ensures Matches(rest, text[k..]) <==> q <= text[k..]
    {
      EscapedIsPrefix(q, text[k..]);
    }
    assert Matches(pattern, text) <==> exists k :: 0 <= k <= |text| && Matches(rest, text[k..]);
  }

  // ---------------------------------------------------------------- ILIKE in the events branch

  /** Case folding character by character; it keeps the three special characters apart from all others. */
  type Fold = char -> char

  ghost predicate KeepsSpecials(fold: Fold) {
    forall c :: (IsSpecial(c) ==> fold(c) == c) && (IsSpecial(fold(c)) ==> fold(c) == c)
  }

  function Folded(s: string, fold: Fold): string {
    if s == "" then "" else [fold(s[0])] + Folded(s[1..], fold)
  }

  lemma {:induction false} FoldedConcat(a: string, b: string, fold: Fold)
    ensures Folded(a + b, fold) == Folded(a, fold) + Folded(b, fold)
  {
    if a == "" {
      assert a + b == b;
    } else {
      assert (a + b)[1..] == a[1..] + b;
      FoldedConcat(a[1..], b, fold);
    }
  }

  lemma {:induction false} FoldOfEscape(q: string, fold: Fold)
    requires KeepsSpecials(fold)
    ensures Folded(Escape(q), fold) == Escape(Folded(q, fold))
  {
    if q != "" {
      var c := q[0];
      var head := if IsSpecial(c) then ['\\', c] else [c];
      FoldOfEscape(q[1..], fold);
      FoldedConcat(head, Escape(q[1..]), fold);
      assert IsSpecial('\\');
      assert ['\\', c][1..] == [c] && [c][1..] == "";
      assert Folded([c], fold) == [fold(c)] + Folded("", fold);
      assert Folded(head, fold) == if IsSpecial(c) then ['\\', c] else [fold(c)];
      assert Folded(q, fold)[1..] == Folded(q[1..], fold);
    }
  }

  predicate ILike(text: string, pattern: string, fold: Fold) {
    Matches(Folded(pattern, fold), Folded(text, fold))
  }

  /** The `WHERE` clause of the events branch: the type or the payload text, a missing payload being
      the empty text. */
  predicate EventSelected(q: string, eventType: string, payload: Option<string>, fold: Fold) {
    var pattern := "%" + EscapeLikePattern(q) + "%";
    ILike(eventType, pattern, fold) ||
    ILike(match payload case Some(p) => p case None => "", pattern, fold)
  }

  /** An event is selected exactly when the query occurs, up to case, in its type or its payload text;
      `%`, `_` and `\` in the query stand for themselves. */
  lemma EventsAreFoundBySubstring(q: string, eventType: string, payload: Option<string>, fold: Fold)
    requires KeepsSpecials(fold)
    ensures EventSelected(q, eventType, payload, fold) <==>
            || IsSubstring(Folded(q, fold), Folded(eventType, fold))
            || IsSubstring(Folded(q, fold), Folded(match payload case Some(p) => p case None => "", fold))
  {
    hide Matches, IsSubstring, KeepsSpecials, EscapeLikePattern;
    FoldOfPattern(q, fold);
    EscapedLikeIsSubstring(Folded(q, fold), Folded(eventType, fold));
    EscapedLikeIsSubstring(Folded(q, fold), Folded(match payload case Some(p) => p case None => "", fold));
  }

  lemma FoldOfPattern(q: string, fold: Fold)
    requires KeepsSpecials(fold)
    ensures Folded("%" + EscapeLikePattern(q) + "%", fold) == "%" + EscapeLikePattern(Folded(q, fold)) + "%"
  {
    hide EscapeLikePattern;
    SequentialIsSimultaneous(q);
    SequentialIsSimultaneous(Folded(q, fold));
    FoldOfEscape(q, fold);
    assert IsSpecial('%') && "%"[1..] == "";
    assert Folded("%", fold) == [fold('%')] + Folded("", fold) == "%";
    FoldedConcat("%", Escape(q), fold);
    FoldedConcat("%" + Escape(q), "%", fold);
  }
}
