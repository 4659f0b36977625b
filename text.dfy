/**
 * JavaScript string behaviour that the todo engine relies on: `trim()`, the
 * regular-expression classes `\s`, `\d` and `.`, `split("\n")`/`join("\n")`,
 * `startsWith`, `includes`, `slice(0, n)` and the decimal rendering of a
 * number inside a template string.
 */
module Text {
  import opened Options

  /** JavaScript's WhiteSpace and LineTerminator code points: exactly the
      characters `String.prototype.trim` removes and the class `\s` matches. */
  predicate IsSpace(c: char) {
    || c == '\t' || c == '\n' || c == '\U{B}' || c == '\U{C}' || c == '\r' || c == ' '
    || c == '\U{A0}' || c == '\U{1680}' || ('\U{2000}' <= c <= '\U{200A}')
    || c == '\U{2028}' || c == '\U{2029}' || c == '\U{202F}' || c == '\U{205F}'
    || c == '\U{3000}' || c == '\U{FEFF}'
  }

  /** The characters the regular-expression wildcard `.` does not match. */
  predicate IsLineTerminator(c: char) {
    c == '\n' || c == '\r' || c == '\U{2028}' || c == '\U{2029}'
  }

  /** The class `\d`: ASCII digits only. */
  predicate IsDigit(c: char) {
    '0' as int <= c as int <= '9' as int
  }

  predicate NoLineTerminator(s: string) {
    forall i {:trigger IsLineTerminator(s[i])} :: 0 <= i < |s| ==> !IsLineTerminator(s[i])
  }

  predicate AllSpaces(s: string) {
    forall i {:trigger IsSpace(s[i])} :: 0 <= i < |s| ==> IsSpace(s[i])
  }

  /** Neither end of `s` is white space: what `trim()` returns. */
  predicate IsTrimmed(s: string) {
    s == [] || (!IsSpace(s[0]) && !IsSpace(s[|s| - 1]))
  }

  predicate StartsWith(s: string, prefix: string) {
    |prefix| <= |s| && s[..|prefix|] == prefix
  }

  predicate OccursAt(hay: string, needle: string, k: int) {
    0 <= k <= |hay| - |needle| && hay[k..k + |needle|] == needle
  }

  /** `hay.includes(needle)`: the needle starts at some position of `hay`. */
  predicate Contains(hay: string, needle: string) {
    exists k | 0 <= k <= |hay| - |needle| :: OccursAt(hay, needle, k)
  }

  /** `s.trimStart()`, also the effect of a leading `\s*` that is not backtracked into. */
  function TrimStart(s: string): (r: string)
    ensures r == [] || !IsSpace(r[0])
  {
    s[SpacesFrom(s, 0)..]
  }

  /** The end of the run of white space that starts at `i`. */
  function SpacesFrom(s: string, i: nat): (j: nat)
    requires i <= |s|
    ensures i <= j <= |s|
    ensures j == |s| || !IsSpace(s[j])
    decreases |s| - i
  {
    if i < |s| && IsSpace(s[i]) then SpacesFrom(s, i + 1) else i
  }

  /** Everything `SpacesFrom` steps over is white space. */
  lemma {:induction false} SpacesFromSpaces(s: string, i: nat)
    requires i <= |s|
    ensures AllSpaces(s[i..SpacesFrom(s, i)])
    decreases |s| - i
  {
    if i < |s| && IsSpace(s[i]) {
      SpacesFromSpaces(s, i + 1);
      var j := SpacesFrom(s, i);
      assert s[i..j] == [s[i]] + s[i + 1..j];
    }
  }

  /** What `trimStart()` removes is white space. */
  lemma TrimStartSpaces(s: string)
    ensures AllSpaces(s[..|s| - |TrimStart(s)|])
  {
    SpacesFromSpaces(s, 0);
    assert s[..|s| - |TrimStart(s)|] == s[0..SpacesFrom(s, 0)];
  }

  function TrimEnd(s: string): (r: string)
    ensures |r| <= |s| && r == s[..|r|]
    ensures r == [] || !IsSpace(r[|r| - 1])
  {
    s[..SpacesBefore(s, |s|)]
  }

  /** The start of the run of white space that ends at `j`. */
  function SpacesBefore(s: string, j: nat): (i: nat)
    requires j <= |s|
    ensures i <= j
    ensures i == 0 || !IsSpace(s[i - 1])
  {
    if 0 < j && IsSpace(s[j - 1]) then SpacesBefore(s, j - 1) else j
  }

  /** Everything `SpacesBefore` steps over is white space. */
  lemma {:induction false} SpacesBeforeSpaces(s: string, j: nat)
    requires j <= |s|
    ensures AllSpaces(s[SpacesBefore(s, j)..j])
  {
    if 0 < j && IsSpace(s[j - 1]) {
      SpacesBeforeSpaces(s, j - 1);
      var i := SpacesBefore(s, j);
      assert s[i..j] == s[i..j - 1] + [s[j - 1]];
    }
  }

  /** What `trimEnd()` removes is white space. */
  lemma TrimEndSpaces(s: string)
    ensures AllSpaces(s[|TrimEnd(s)|..])
  {
    SpacesBeforeSpaces(s, |s|);
    assert s[|TrimEnd(s)|..] == s[SpacesBefore(s, |s|)..|s|];
  }

  /** `s.trim()`: the longest slice of `s` that neither starts nor ends with white space. */
  function Trim(s: string): (r: string)
    ensures IsTrimmed(r)
  {
    TrimEnd(TrimStart(s))
  }

  /** `trim()` yields "" exactly for strings made only of white space. */
  lemma TrimEmpty(s: string)
    ensures Trim(s) == [] <==> AllSpaces(s)
  {
    var t := TrimStart(s);
    TrimStartSpaces(s);
    if t != [] {
      assert !IsSpace(s[|s| - |t|]);
    }
    if Trim(s) == [] {
      TrimEndSpaces(t);
      assert t[0..] == t;
      assert s == s[..|s| - |t|] + t;
    }
  }

  lemma {:induction false} TrimOfTrimmed(s: string)
    requires IsTrimmed(s)
    ensures Trim(s) == s
  {
  }

  /** White space in front of a trimmed string is what `trim()` removes. */
  lemma {:induction false} TrimOfLeadingSpaces(lead: string, body: string)
    requires AllSpaces(lead) && IsTrimmed(body)
    ensures Trim(lead + body) == body
  {
    TrimStartOfLeadingSpaces(lead, body);
  }

  lemma {:induction false} TrimStartOfLeadingSpaces(lead: string, body: string)
    requires AllSpaces(lead) && (body == [] || !IsSpace(body[0]))
    ensures TrimStart(lead + body) == body
  {
    SpacesFromLead(lead, body, 0);
    assert (lead + body)[|lead|..] == body;
  }

  /** `SpacesFrom` stops exactly where the white-space prefix `lead` ends. */
  lemma {:induction false} SpacesFromLead(lead: string, body: string, i: nat)
    requires i <= |lead| && AllSpaces(lead) && (body == [] || !IsSpace(body[0]))
    ensures SpacesFrom(lead + body, i) == |lead|
    decreases |lead| - i
  {
    var s := lead + body;
    if i < |lead| {
      assert IsSpace(s[i]) by { assert s[i] == lead[i]; }
      SpacesFromLead(lead, body, i + 1);
    } else if body != [] {
      assert s[i] == body[0];
    }
  }

  /** The prefix of white space that `/^(\s*)/` captures. */
  function LeadingSpaces(s: string): (r: string)
    ensures StartsWith(s, r) && AllSpaces(r)
    ensures |r| == |s| || !IsSpace(s[|r|])
  {
    TrimStartSpaces(s);
    s[..|s| - |TrimStart(s)|]
  }

  /** `s.slice(0, n)`. */
  function Take(s: string, n: nat): (r: string)
    ensures StartsWith(s, r)
    ensures |r| == if |s| <= n then |s| else n
  {
    if |s| <= n then s else s[..n]
  }

  /** `k` is where the group `(.+)` of `\s*(.+)$` may start in `s`. */
  predicate RestStartsAt(s: string, k: int) {
    0 <= k < |s| && AllSpaces(s[..k]) && NoLineTerminator(s[k..])
  }

  /**
   * The regular-expression tail `\s*(.+)$` applied to `s` (anchored where `s`
   * starts): the captured group, or None when the tail does not match. The
   * greedy `\s*` leaves the capture as late a start as the match allows;
   * `SpacesThenRestMatches` states this.
   */
  function SpacesThenRest(s: string): (r: Option<string>)
    ensures r.Some? ==> r.value != [] && |r.value| <= |s| && r.value == s[|s| - |r.value|..]
  {
    var t := TrimStart(s);
    if t != [] then
      if NoLineTerminator(t) then Some(t) else None
    else if s != [] && !IsLineTerminator(s[|s| - 1]) then Some(s[|s| - 1..])
    else None
  }

  /** `SpacesThenRest` finds a capture exactly when one exists, and picks the latest start. */
  lemma SpacesThenRestMatches(s: string)
    ensures var r := SpacesThenRest(s);
            && (r.Some? <==> exists k :: RestStartsAt(s, k))
            && (r.Some? ==> RestStartsAt(s, |s| - |r.value|))
            && (r.Some? ==> forall k :: RestStartsAt(s, k) ==> k <= |s| - |r.value|)
  {
    var t := TrimStart(s);
    TrimStartSpaces(s);
    if t != [] {
      if NoLineTerminator(t) {
        assert RestStartsAt(s, |s| - |t|);
      } else {
        forall k | 0 <= k < |s| && AllSpaces(s[..k]) ensures !NoLineTerminator(s[k..]) {
          var p :| 0 <= p < |t| && IsLineTerminator(t[p]);
          assert s[k..][|s| - |t| - k + p] == t[p];
        }
      }
    } else if s != [] && !IsLineTerminator(s[|s| - 1]) {
      assert RestStartsAt(s, |s| - 1);
    } else {
      forall k | 0 <= k < |s| ensures !NoLineTerminator(s[k..]) {
        assert s[k..][|s| - 1 - k] == s[|s| - 1];
      }
    }
  }

  /** The length of the longest prefix of `s` whose characters satisfy `IsDigit`. */
  function DigitRun(s: string): (n: nat)
    ensures n <= |s|
    ensures forall i {:trigger IsDigit(s[i])} :: 0 <= i < n ==> IsDigit(s[i])
    ensures n == |s| || !IsDigit(s[n])
  {
    DigitsFrom(s, 0)
  }

  /** The end of the run of digits that starts at `i`. */
  function DigitsFrom(s: string, i: nat): (j: nat)
    requires i <= |s|
    ensures i <= j <= |s|
    ensures forall k {:trigger IsDigit(s[k])} :: i <= k < j ==> IsDigit(s[k])
    ensures j == |s| || !IsDigit(s[j])
    decreases |s| - i
  {
    if i < |s| && IsDigit(s[i]) then DigitsFrom(s, i + 1) else i
  }

  /** `content.split("\n")`: never empty, and no piece holds a newline. */
  function Split(s: string): (lines: seq<string>)
    ensures |lines| >= 1
    ensures forall i :: 0 <= i < |lines| ==> '\n' !in lines[i]
  {
    if s == [] then [""]
    else
      var rest := Split(s[1..]);
      if s[0] == '\n' then [""] + rest else [[s[0]] + rest[0]] + rest[1..]
  }

  /** `lines.join("\n")`. */
  function Join(lines: seq<string>): string {
    if |lines| == 0 then ""
    else if |lines| == 1 then lines[0]
    else lines[0] + "\n" + Join(lines[1..])
  }

  lemma {:induction false} JoinSplit(s: string)
    ensures Join(Split(s)) == s
  {
    if s != [] {
      JoinSplit(s[1..]);
      var rest := Split(s[1..]);
      if s[0] == '\n' {
        assert Join([""] + rest) == "" + "\n" + Join(rest);
      } else if |rest| == 1 {
        assert Split(s) == [[s[0]] + rest[0]];
      } else {
        assert Split(s)[1..] == rest[1..];
        assert Join(Split(s)) == [s[0]] + rest[0] + "\n" + Join(rest[1..]);
      }
    }
  }

  lemma {:induction false} SplitJoin(lines: seq<string>)
    requires |lines| >= 1
    requires forall i :: 0 <= i < |lines| ==> '\n' !in lines[i]
    ensures Split(Join(lines)) == lines
  {
    if |lines| == 1 {
      SplitNoNewline(lines[0]);
    } else {
      SplitJoin(lines[1..]);
      SplitAround(lines[0], Join(lines[1..]));
      assert [lines[0]] + lines[1..] == lines;
    }
  }

  lemma {:induction false} SplitNoNewline(s: string)
    requires '\n' !in s
    ensures Split(s) == [s]
  {
    if s != [] {
      assert s[0] != '\n' && '\n' !in s[1..];
      SplitNoNewline(s[1..]);
      assert [s[0]] + s[1..] == s;
    }
  }

  /** Splitting `a + "\n" + b` where `a` has no newline. */
  lemma {:induction false} SplitAround(a: string, b: string)
    requires '\n' !in a
    ensures Split(a + "\n" + b) == [a] + Split(b)
  {
    if a == [] {
      assert a + "\n" + b == "\n" + b;
      assert ("\n" + b)[1..] == b;
    } else {
      SplitAround(a[1..], b);
      assert (a + "\n" + b)[1..] == a[1..] + "\n" + b;
      assert [a[0]] + a[1..] == a;
    }
  }

  function DigitChar(d: nat): (c: char)
    requires d < 10
    ensures IsDigit(c)
  {
    ('0' as int + d) as char
  }

  /** The decimal rendering of `n` that a template string produces. */
  function NatToString(n: nat): (r: string)
    ensures |r| >= 1
    ensures forall i :: 0 <= i < |r| ==> IsDigit(r[i])
  {
    if n < 10 then [DigitChar(n)] else NatToString(n / 10) + [DigitChar(n % 10)]
  }

  /** The number a string of decimal digits denotes. */
  function DigitsValue(s: string): nat
    requires forall i :: 0 <= i < |s| ==> IsDigit(s[i])
  {
    if s == [] then 0
    else
      assert IsDigit(s[|s| - 1]);
      DigitsValue(s[..|s| - 1]) * 10 + (s[|s| - 1] as int - '0' as int)
  }

  lemma {:induction false} NatToStringRoundTrip(n: nat)
    ensures DigitsValue(NatToString(n)) == n
  {
    if n >= 10 {
      NatToStringRoundTrip(n / 10);
      var r := NatToString(n);
      assert r[..|r| - 1] == NatToString(n / 10);
    }
  }

  lemma NatToStringInjective(m: nat, n: nat)
    requires NatToString(m) == NatToString(n)
    ensures m == n
  {
    NatToStringRoundTrip(m);
    NatToStringRoundTrip(n);
  }
}
