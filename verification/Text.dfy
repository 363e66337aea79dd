/** Definitions shared by several models, JavaScript string helpers above all: `trim`, `startsWith`, `join`.
    Strings are sequences of `char`. */
module Text {

  datatype Option<+T> = None | Some(value: T)
  datatype Result<+T, +E> = Ok(value: T) | Err(error: E)

  predicate Distinct<T(==)>(s: seq<T>) {
    forall i, j :: 0 <= i < j < |s| ==> s[i] != s[j]
  }

  /** `idx` lists, in order, exactly the positions below `n` that are to be kept. */
  ghost predicate Picks(idx: seq<nat>, n: nat, keep: nat -> bool) {
    && (forall i, j :: 0 <= i < j < |idx| ==> idx[i] < idx[j])
    && (forall i :: 0 <= i < |idx| ==> idx[i] < n)
    && (forall k: nat :: k < n ==> (k in idx <==> keep(k)))
  }

  lemma PicksMore(idx: seq<nat>, n: nat, keep: nat -> bool, more: nat -> bool)
    requires Picks(idx, n, keep) && forall k: nat :: k < n ==> keep(k) == more(k)
    ensures Picks(if more(n) then idx + [n] else idx, n + 1, more)
    ensures forall i :: 0 <= i < |idx| ==> idx[i] < n
  {}

  lemma {:induction false} PicksAreUnique(a: seq<nat>, b: seq<nat>, n: nat, keep: nat -> bool)
    requires Picks(a, n, keep) && Picks(b, n, keep)
    ensures a == b
    decreases |a| + |b|
  {
    hide Picks;
    PickedTogether(a, b, n, keep);
    PickedTogether(b, a, n, keep);
    if a != [] {
      var x := a[|a| - 1];
      DropLastPick(a, n, keep);
      DropLastPick(b, n, keep);
      PicksAreUnique(a[..|a| - 1], b[..|b| - 1], x, keep);
      assert a == a[..|a| - 1] + [x] && b == b[..|b| - 1] + [x];
    }
  }

  lemma PickedTogether(a: seq<nat>, b: seq<nat>, n: nat, keep: nat -> bool)
    requires Picks(a, n, keep) && Picks(b, n, keep)
    ensures a != [] ==> b != [] && a[|a| - 1] <= b[|b| - 1]
  {
    if a != [] {
      var x := a[|a| - 1];
      assert x in a && x in b;
    }
  }

  lemma DropLastPick(a: seq<nat>, n: nat, keep: nat -> bool)
    requires a != [] && Picks(a, n, keep)
    ensures Picks(a[..|a| - 1], a[|a| - 1], keep)
  {
    var x, init := a[|a| - 1], a[..|a| - 1];
    assert a == init + [x];
  }

  lemma PicksNone(keep: nat -> bool)
    ensures Picks([], 0, keep)
  {}

  lemma PicksAll(n: nat, keep: nat -> bool) returns (idx: seq<nat>)
    requires forall k: nat :: k < n ==> keep(k)
    ensures Picks(idx, n, keep) && |idx| == n && forall k :: 0 <= k < n ==> idx[k] == k
  {
    idx := seq(n, i requires i >= 0 => i);
    forall k: nat | k < n ensures k in idx { assert idx[k] == k; }
  }

  predicate IsDigit(c: char) {
    '0' <= c <= '9'
  }

  /** The position of the first `c`, or the length. */
  function IndexOf(s: string, c: char): (i: nat)
    ensures i <= |s| && c !in s[..i] && (i < |s| ==> s[i] == c)
  {
    if s == "" || s[0] == c then 0
    else
      var j := IndexOf(s[1..], c);
      assert s[..j + 1] == [s[0]] + s[1..][..j];
      j + 1
  }

  lemma IndexOfIs(s: string, c: char, i: nat)
    requires i <= |s| && c !in s[..i] && (i < |s| ==> s[i] == c)
    ensures IndexOf(s, c) == i
  {}

  /** The characters `String.prototype.trim` removes: WhiteSpace and LineTerminator of ECMA-262. */
  predicate IsSpace(c: char) {
    c == '\t' || c == '\n' || c == '\U{0B}' || c == '\U{0C}' || c == '\r' || c == ' ' ||
    c == '\U{A0}' || c == '\U{1680}' || '\U{2000}' <= c <= '\U{200A}' || c == '\U{2028}' ||
    c == '\U{2029}' || c == '\U{202F}' || c == '\U{205F}' || c == '\U{3000}' || c == '\U{FEFF}'
  }

  /** The characters that `.` does not match in a regular expression without the `s` flag. */
  predicate IsLineTerminator(c: char) {
    c == '\n' || c == '\r' || c == '\U{2028}' || c == '\U{2029}'
  }

  predicate AllSpace(s: string) {
    forall i :: 0 <= i < |s| ==> IsSpace(s[i])
  }

  predicate StartsWith(s: string, prefix: string) {
    prefix <= s
  }

  function TrimStart(s: string): string {
    if s != "" && IsSpace(s[0]) then TrimStart(s[1..]) else s
  }

  function TrimEnd(s: string): string {
    if s != "" && IsSpace(s[|s| - 1]) then TrimEnd(s[..|s| - 1]) else s
  }

  function Trim(s: string): string {
    TrimEnd(TrimStart(s))
  }

  predicate Trimmed(s: string) {
    s != "" ==> !IsSpace(s[0]) && !IsSpace(s[|s| - 1])
  }

  lemma {:induction false} TrimStartCuts(s: string)
    ensures var r := TrimStart(s);
            && |r| <= |s| && r == s[|s| - |r|..] && AllSpace(s[..|s| - |r|])
            && (r != "" ==> !IsSpace(r[0]))
  {
    hide IsSpace;
    if s != "" && IsSpace(s[0]) {
      TrimStartCuts(s[1..]);
      var r := TrimStart(s);
      assert s[..|s| - |r|] == [s[0]] + s[1..][..|s| - 1 - |r|];
    }
  }

  lemma {:induction false} TrimEndCuts(s: string)
    ensures var r := TrimEnd(s);
            && |r| <= |s| && r == s[..|r|] && AllSpace(s[|r|..])
            && (r != "" ==> !IsSpace(r[|r| - 1]))
  {
    hide IsSpace;
    if s != "" && IsSpace(s[|s| - 1]) {
      var n := |s| - 1;
      TrimEndCuts(s[..n]);
      var r := TrimEnd(s);
      assert s[|r|..] == s[..n][|r|..] + [s[n]];
    }
  }

  /** `trim` removes blank margins and nothing else. */
  lemma TrimCuts(s: string) returns (pre: string, post: string)
    ensures s == pre + Trim(s) + post && AllSpace(pre) && AllSpace(post) && Trimmed(Trim(s))
  {
    hide IsSpace, TrimStart, TrimEnd;
    var t := TrimStart(s);
    var r := Trim(s);
    TrimStartCuts(s);
    TrimEndCuts(t);
    pre, post := s[..|s| - |t|], t[|r|..];
    CutsAreParts(s, t, r);
    assert r != "" ==> r[0] == t[0];
  }

  lemma CutsAreParts(s: string, t: string, r: string)
    requires |t| <= |s| && t == s[|s| - |t|..] && |r| <= |t| && r == t[..|r|]
    ensures s == s[..|s| - |t|] + r + t[|r|..]
  {
    assert s == s[..|s| - |t|] + t && t == r + t[|r|..];
  }

  lemma TrimOfBlank(s: string)
    ensures Trim(s) == "" <==> AllSpace(s)
  {
    hide IsSpace;
    var pre, post := TrimCuts(s);
    var r := Trim(s);
    if r == "" {
      assert s == pre + post;
    } else {
      assert s[|pre|] == r[0];
    }
  }

  /** Trimming is decided by what is kept: strip any blank margins from a trimmed core. */
  lemma TrimIs(pre: string, core: string, post: string)
    requires AllSpace(pre) && AllSpace(post) && Trimmed(core)
    ensures Trim(pre + core + post) == core
  {
    hide IsSpace;
    var s := pre + core + post;
    if core == "" {
      assert s == (pre + post) + "";
      TrimStartIs(pre + post, "");
    } else {
      assert s == pre + (core + post);
      TrimStartIs(pre, core + post);
      TrimEndIs(core, post);
    }
  }

  lemma {:induction false} TrimStartIs(pre: string, s: string)
    requires AllSpace(pre) && (s != "" ==> !IsSpace(s[0]))
    ensures TrimStart(pre + s) == s
  {
    if pre == "" {
      assert pre + s == s;
    } else {
      assert (pre + s)[1..] == pre[1..] + s;
      TrimStartIs(pre[1..], s);
    }
  }

  lemma {:induction false} TrimEndIs(s: string, post: string)
    requires AllSpace(post) && (s != "" ==> !IsSpace(s[|s| - 1]))
    ensures TrimEnd(s + post) == s
  {
    if post == "" {
      assert s + post == s;
    } else {
      var n := |post| - 1;
      assert (s + post)[..|s + post| - 1] == s + post[..n];
      TrimEndIs(s, post[..n]);
    }
  }

  /** `parts.join(separator)`. */
  function Join(parts: seq<string>, separator: string): string {
    if parts == [] then ""
    else if |parts| == 1 then parts[0]
    else parts[0] + separator + Join(parts[1..], separator)
  }

  /** Concatenation of all parts, in order. */
  function Flatten(parts: seq<string>): string {
    if parts == [] then "" else parts[0] + Flatten(parts[1..])
  }

  lemma {:induction false} FlattenAppend(parts: seq<string>, last: string)
    ensures Flatten(parts + [last]) == Flatten(parts) + last
  {
    if parts == [] {
      assert parts + [last] == [last];
      assert Flatten([last]) == last + Flatten([]) == last;
    } else {
      assert (parts + [last])[1..] == parts[1..] + [last];
      FlattenAppend(parts[1..], last);
    }
  }
}
