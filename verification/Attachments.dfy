/** Staging chat attachments under distinct file names (`apps/agent-runtime/src/invoke/invoke.service.ts`,
    `packages/shared/src/lib/sanitize-filename.ts`). */
module Attachments {
  import opened Text

  // ---------------------------------------------------------------- sanitizeFilename

  predicate IsUnsafe(c: char) {
    c in "/\\:*?\"<>|" || c < ' '
  }

  function ReplaceUnsafe(s: string): string {
    if s == "" then "" else [if IsUnsafe(s[0]) then '_' else s[0]] + ReplaceUnsafe(s[1..])
  }

  /** `replace(/\.{2,}/g, '.')`. */
  function CollapseDots(s: string): string {
    if s == "" then ""
    else if |s| >= 2 && s[0] == '.' && s[1] == '.' then CollapseDots(s[1..])
    else [s[0]] + CollapseDots(s[1..])
  }

  function SanitizeFilename(name: string): string {
    var s := CollapseDots(ReplaceUnsafe(name));
    if |s| <= 255 then s else s[..255]
  }

  /** No path separator, no control character, no parent-directory dots. */
  predicate Safe(s: string) {
    && (forall i :: 0 <= i < |s| ==> !IsUnsafe(s[i]))
    && (forall i :: 0 <= i < |s| - 1 ==> !(s[i] == '.' && s[i + 1] == '.'))
  }

  lemma {:induction false} ReplaceUnsafeIs(s: string)
    ensures forall i :: 0 <= i < |ReplaceUnsafe(s)| ==> !IsUnsafe(ReplaceUnsafe(s)[i])
  {
    if s != "" { ReplaceUnsafeIs(s[1..]); }
  }

  lemma {:induction false} CollapseDotsIs(s: string)
    requires forall i :: 0 <= i < |s| ==> !IsUnsafe(s[i])
    ensures Safe(CollapseDots(s))
    ensures s != "" ==> CollapseDots(s) != "" && CollapseDots(s)[0] == s[0]
  {
    hide IsUnsafe;
    if s != "" { CollapseDotsIs(s[1..]); }
  }

  lemma SanitizedIsSafe(name: string)
    ensures Safe(SanitizeFilename(name)) && |SanitizeFilename(name)| <= 255
  {
    hide IsUnsafe;
    ReplaceUnsafeIs(name);
    CollapseDotsIs(ReplaceUnsafe(name));
  }

  lemma {:induction false} ReplaceUnsafeAt(s: string)
    ensures |ReplaceUnsafe(s)| == |s|
    ensures forall i :: 0 <= i < |s| ==> ReplaceUnsafe(s)[i] == if IsUnsafe(s[i]) then '_' else s[i]
  {
    hide IsUnsafe;
    if s != "" { ReplaceUnsafeAt(s[1..]); }
  }

  predicate NoDoubledDot(s: string) {
    forall i :: 0 <= i < |s| - 1 ==> !(s[i] == '.' && s[i + 1] == '.')
  }

  lemma {:induction false} CollapseOfSingle(s: string)
    requires NoDoubledDot(s)
    ensures CollapseDots(s) == s
  {
    if s != "" {
      assert |s| >= 2 ==> !(s[0] == '.' && s[0 + 1] == '.');
      CollapseOfSingle(s[1..]);
      assert s == [s[0]] + s[1..];
    }
  }

  function WithoutDots(s: string): string {
    if s == "" then "" else (if s[0] == '.' then "" else [s[0]]) + WithoutDots(s[1..])
  }

  lemma {:induction false} CollapseDropsDots(s: string)
    ensures WithoutDots(CollapseDots(s)) == WithoutDots(s)
  {
    if s != "" {
      var rest := CollapseDots(s[1..]);
      CollapseDropsDots(s[1..]);
      assert ([s[0]] + rest)[1..] == rest;
    }
  }

  /** Every unsafe character becomes an underscore, every other one stays, and beyond 255 characters the
      name is cut. Where no dot is doubled, nothing else changes; where dots are, only dots are dropped. */
  lemma SanitizedIs(name: string)
    ensures exists plain :: IsPlain(plain, name)
    ensures forall plain :: IsPlain(plain, name) ==>
              exists full :: Safe(full) && WithoutDots(full) == WithoutDots(plain)
                             && (NoDoubledDot(plain) ==> full == plain)
                             && SanitizeFilename(name) == if |full| <= 255 then full else full[..255]
  {
    hide IsUnsafe;
    var plain := ReplaceUnsafe(name);
    ReplaceUnsafeAt(name);
    ReplaceUnsafeIs(name);
    CollapseDotsIs(plain);
    CollapseDropsDots(plain);
    if NoDoubledDot(plain) { CollapseOfSingle(plain); }
    assert IsPlain(plain, name);
    forall p | IsPlain(p, name) ensures p == plain {}
  }

  predicate IsPlain(plain: string, name: string) {
    |plain| == |name| && forall i :: 0 <= i < |name| ==> plain[i] == if IsUnsafe(name[i]) then '_' else name[i]
  }

  /** A safe name of at most 255 characters stays as it is. */
  lemma SafeNamesStay(name: string)
    requires Safe(name) && |name| <= 255
    ensures SanitizeFilename(name) == name
  {
    hide IsUnsafe;
    ReplaceUnsafeAt(name);
    assert ReplaceUnsafe(name) == name;
    CollapseOfSingle(name);
  }

  // ---------------------------------------------------------------- numbered candidates

  function Digit(n: nat): char
    requires n < 10
  {
    "0123456789"[n]
  }

  /** `${n}`. */
  function Decimal(n: nat): (r: string)
    ensures r != ""
  {
    if n < 10 then [Digit(n)] else Decimal(n / 10) + [Digit(n % 10)]
  }

  function DigitValue(c: char): nat {
    if IsDigit(c) then (c as int) - ('0' as int) else 0
  }

  function ValueOf(s: string): nat {
    if s == "" then 0 else ValueOf(s[..|s| - 1]) * 10 + DigitValue(s[|s| - 1])
  }

  lemma DigitIs(n: nat)
    requires n < 10
    ensures DigitValue(Digit(n)) == n && IsDigit(Digit(n))
  {}

  lemma {:induction false} DecimalIsReadable(n: nat)
    ensures ValueOf(Decimal(n)) == n
    ensures forall i :: 0 <= i < |Decimal(n)| ==> IsDigit(Decimal(n)[i])
  {
    hide Digit, DigitValue, IsDigit;
    var last := [Digit(n % 10)];
    DigitIs(n % 10);
    if n >= 10 {
      DecimalIsReadable(n / 10);
      var d := Decimal(n / 10);
      assert (d + last)[..|d|] == d;
    } else {
      assert last[..0] == "" && ValueOf("") == 0;
    }
  }

  function LastDot(s: string): (i: int)
    ensures -1 <= i < |s| && (i >= 0 ==> s[i] == '.')
  {
    if s == "" then -1 else if s[|s| - 1] == '.' then |s| - 1 else LastDot(s[..|s| - 1])
  }

  /** The name tried after `k` collisions: a numeric suffix before the extension, or at the end when
      the only dot is leading or there is none. */
  function Candidate(safeName: string, k: nat): string {
    if k == 0 then safeName
    else
      var dot := LastDot(safeName);
      if dot > 0 then safeName[..dot] + "-" + Decimal(k) + safeName[dot..] else safeName + "-" + Decimal(k)
  }

  lemma {:induction false} LastDotIs(s: string, i: nat)
    requires i < |s| && s[i] == '.' && '.' !in s[i + 1..]
    ensures LastDot(s) == i
  {
    if i < |s| - 1 {
      var n := |s| - 1;
      assert s[n] in s[i + 1..];
      assert s[i + 1..] == s[..n][i + 1..] + [s[n]];
      LastDotIs(s[..n], i);
    }
  }

  lemma {:induction false} NoLastDot(s: string)
    requires '.' !in s
    ensures LastDot(s) == -1
  {
    if s != "" { NoLastDot(s[..|s| - 1]); }
  }

  /** The suffix is written in decimal without leading zeros. */
  lemma {:induction false} DecimalIsShortest(n: nat)
    requires n > 0
    ensures Decimal(n)[0] != '0'
  {
    if n >= 10 { DecimalIsShortest(n / 10); }
  }

  /** A suffix goes before the extension, which is kept; a name without one, or with a leading dot only, gets
      it at the end. */
  lemma CandidateIs(base: string, extension: string, k: nat)
    requires '.' !in extension && k > 0
    ensures base != "" ==> Candidate(base + "." + extension, k) == base + "-" + Decimal(k) + "." + extension
    ensures Candidate(extension, k) == extension + "-" + Decimal(k)
    ensures Candidate("." + extension, k) == "." + extension + "-" + Decimal(k)
    ensures ValueOf(Decimal(k)) == k && Decimal(k)[0] != '0'
  {
    hide Decimal, ValueOf, LastDot, Candidate;
    DecimalIsReadable(k);
    DecimalIsShortest(k);
    if base != "" { CandidateBeforeExtension(base, extension, k); }
    NoLastDot(extension);
    CandidateAtEnd(extension, k);
    assert ("." + extension)[0 + 1..] == extension;
    LastDotIs("." + extension, 0);
    CandidateAtEnd("." + extension, k);
  }

  lemma CandidateBeforeExtension(base: string, extension: string, k: nat)
    requires '.' !in extension && k > 0 && base != ""
    ensures Candidate(base + "." + extension, k) == base + "-" + Decimal(k) + "." + extension
  {
    hide Decimal, LastDot;
    var name, n := base + "." + extension, |base|;
    assert name[n + 1..] == extension;
    LastDotIs(name, n);
    assert name[..n] == base && name[n..] == "." + extension;
    assert base + "-" + Decimal(k) + ("." + extension) == base + "-" + Decimal(k) + "." + extension;
  }

  lemma CandidateAtEnd(name: string, k: nat)
    requires k > 0 && LastDot(name) <= 0
    ensures Candidate(name, k) == name + "-" + Decimal(k)
  {}

  /** Candidates of one file are pairwise distinct. */
  lemma CandidatesDiffer(safeName: string, j: nat, k: nat)
    requires Candidate(safeName, j) == Candidate(safeName, k)
    ensures j == k
  {
    hide Decimal, ValueOf, LastDot, IsDigit;
    if j > 0 && k > 0 {
      var dot := LastDot(safeName);
      var a, b := Candidate(safeName, j), Candidate(safeName, k);
      var n := if dot > 0 then dot + 1 else |safeName| + 1;
      assert |Decimal(j)| == |Decimal(k)|;
      assert a[n..n + |Decimal(j)|] == Decimal(j);
      assert b[n..n + |Decimal(k)|] == Decimal(k);
      DecimalIsReadable(j);
      DecimalIsReadable(k);
    }
  }

  /** Pairwise distinct names that are all in use cannot outnumber the names in use. */
  lemma {:induction false} Pigeonhole(names: seq<string>, used: set<string>)
    requires forall i :: 0 <= i < |names| ==> names[i] in used
    requires forall i, j :: 0 <= i < j < |names| ==> names[i] != names[j]
    ensures |names| <= |used|
  {
    if names != [] {
      var n := |names| - 1;
      Pigeonhole(names[..n], used - {names[n]});
    }
  }

  /** `n` collisions need `n` names in use. */
  lemma CollisionsAreBounded(safeName: string, n: nat, used: set<string>)
    requires forall k :: 0 <= k < n ==> Candidate(safeName, k) in used
    ensures n <= |used|
  {
    hide Candidate;
    var tried := seq(n, k requires k >= 0 => Candidate(safeName, k));
    forall j, k | 0 <= j < k < n ensures tried[j] != tried[k] {
      if Candidate(safeName, j) == Candidate(safeName, k) { CandidatesDiffer(safeName, j, k); }
    }
    Pigeonhole(tried, used);
  }

  lemma DigitsAreSafe(d: string)
    requires forall i :: 0 <= i < |d| ==> IsDigit(d[i])
    ensures Safe("-" + d)
  {}

  lemma SafeInsert(s: string, n: nat, mid: string)
    requires Safe(s) && Safe(mid) && n <= |s| && mid != "" && mid[0] != '.' && mid[|mid| - 1] != '.'
    ensures Safe(s[..n] + mid + s[n..])
  {}

  /** A suffix keeps a safe name safe: it adds no separator and no doubled dot. */
  lemma CandidateIsSafe(safeName: string, k: nat)
    requires Safe(safeName)
    ensures Safe(Candidate(safeName, k))
  {
    hide Safe, Decimal, LastDot;
    if k > 0 {
      var d, dot := Decimal(k), LastDot(safeName);
      DecimalIsReadable(k);
      DigitsAreSafe(d);
      var mid, n := "-" + d, if dot > 0 then dot else |safeName|;
      assert mid[|mid| - 1] == d[|d| - 1];
      SafeInsert(safeName, n, mid);
      assert Candidate(safeName, k) == safeName[..n] + mid + safeName[n..];
    }
  }

  // ---------------------------------------------------------------- staging

  datatype ChatFile = ChatFile(name: string, id: string)

  /** `sanitizeFilename(file.name || file.id || 'attachment')`. */
  function SafeName(f: ChatFile): string {
    SanitizeFilename(if f.name != "" then f.name else if f.id != "" then f.id else "attachment")
  }

  /** A file is named after its name, without one after its id, and without both `attachment`. */
  lemma SafeNameIs(f: ChatFile)
    ensures SafeName(f) == if f.name == "" == f.id then "attachment"
                           else SanitizeFilename(if f.name == "" then f.id else f.name)
  {
    hide SanitizeFilename;
    assert SanitizeFilename("attachment") == "attachment" by { hide *; SafeNamesStay("attachment"); }
  }

  /** The first candidate that is free. */
  ghost predicate FirstFree(name: string, safeName: string, used: set<string>) {
    exists k: nat :: name == Candidate(safeName, k) && name !in used
                     && forall j :: 0 <= j < k ==> Candidate(safeName, j) in used
  }

  function NamesIn(names: seq<string>): set<string> {
    set i | 0 <= i < |names| :: names[i]
  }

  /** The naming loop of `stageAttachments`: it ends for every list of files, no two files share a
      name, each takes its first free candidate, and every name stays safe. */
  method StageAttachments(files: seq<ChatFile>) returns (names: seq<string>)
    ensures |names| == |files|
    ensures forall i, j :: 0 <= i < j < |names| ==> names[i] != names[j]
    ensures forall i :: 0 <= i < |names| ==>
              FirstFree(names[i], SafeName(files[i]), NamesIn(names[..i])) && Safe(names[i])
  {
    hide Candidate, SafeName, Safe, FirstFree, NamesIn;
    NamesInNone();
    names := [];
    var usedNames: set<string> := {};
    for n := 0 to |files|
      invariant |names| == n && usedNames == NamesIn(names)
      invariant forall i, j :: 0 <= i < j < n ==> names[i] != names[j]
      invariant forall i :: 0 <= i < n ==>
                  FirstFree(names[i], SafeName(files[i]), NamesIn(names[..i])) && Safe(names[i])
    {
      var safeName := SafeName(files[n]);
      var filename := safeName;
      var suffix := 1;
      CandidateZero(safeName);
      while filename in usedNames
        invariant suffix >= 1 && filename == Candidate(safeName, suffix - 1)
        invariant forall j :: 0 <= j < suffix - 1 ==> Candidate(safeName, j) in usedNames
        decreases |usedNames| + 1 - suffix
      {
        CollisionsAreBounded(safeName, suffix, usedNames);
        filename := CandidateText(safeName, suffix);
        suffix := suffix + 1;
      }
      SafeNameIsSafe(files[n]);
      CandidateIsSafe(safeName, suffix - 1);
      FirstFreeIs(safeName, suffix - 1, usedNames);
      ghost var before := names;
      names := names + [filename];
      usedNames := usedNames + {filename};
      NamesInAppend(before, filename);
      assert names[..n] == before;
      assert forall i :: 0 <= i < n ==> names[..i] == before[..i];
    }
  }

  lemma NamesInNone()
    ensures NamesIn([]) == {}
  {}

  lemma FirstFreeIs(safeName: string, k: nat, used: set<string>)
    requires Candidate(safeName, k) !in used && forall j :: 0 <= j < k ==> Candidate(safeName, j) in used
    ensures FirstFree(Candidate(safeName, k), safeName, used)
  {}

  lemma CandidateZero(safeName: string)
    ensures Candidate(safeName, 0) == safeName
  {}

  method CandidateText(safeName: string, suffix: nat) returns (filename: string)
    requires suffix > 0
    ensures filename == Candidate(safeName, suffix)
  {
    var dot := LastDot(safeName);
    if dot > 0 {
      filename := safeName[..dot] + "-" + Decimal(suffix) + safeName[dot..];
    } else {
      filename := safeName + "-" + Decimal(suffix);
    }
  }

  lemma SafeNameIsSafe(f: ChatFile)
    ensures Safe(SafeName(f))
  {
    SanitizedIsSafe(if f.name != "" then f.name else if f.id != "" then f.id else "attachment");
  }

  lemma NamesInAppend(names: seq<string>, name: string)
    ensures NamesIn(names + [name]) == NamesIn(names) + {name}
    ensures forall i :: 0 <= i < |names| ==> names[i] in NamesIn(names)
  {
    var all := names + [name];
    forall x ensures x in NamesIn(all) <==> x in NamesIn(names) || x == name {
      if x in NamesIn(names) {
        var i :| 0 <= i < |names| && names[i] == x;
        assert all[i] == x;
      }
      assert all[|names|] == name;
    }
  }
}
