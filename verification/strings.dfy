/** Character classes and string operations shared by the JavaScript and Python parts of the
    model: trimming, prefix/suffix tests, splitting on a separator, joining, decimal rendering. */
module Strings {

  /** The characters JavaScript's String.prototype.trim removes (WhiteSpace and LineTerminator). */
  predicate IsJsSpace(c: char) {
    c == '\t' || c == '\n' || c == '\U{000B}' || c == '\U{000C}' || c == '\r' || c == ' '
    || c == '\U{00A0}' || c == '\U{1680}' || ('\U{2000}' <= c <= '\U{200A}')
    || c == '\U{2028}' || c == '\U{2029}' || c == '\U{202F}' || c == '\U{205F}'
    || c == '\U{3000}' || c == '\U{FEFF}'
  }

  /** The characters Python's str.isspace accepts, which str.strip() removes and the
      regular-expression class \s matches. */
  predicate IsPySpace(c: char) {
    ('\t' <= c <= '\r') || ('\U{001C}' <= c <= '\U{001F}') || c == ' ' || c == '\U{0085}'
    || c == '\U{00A0}' || c == '\U{1680}' || ('\U{2000}' <= c <= '\U{200A}')
    || c == '\U{2028}' || c == '\U{2029}' || c == '\U{202F}' || c == '\U{205F}'
    || c == '\U{3000}'
  }

  /** Which language's notion of whitespace a trim uses. */
  datatype Whitespace = JsWhitespace | PyWhitespace

  predicate IsSpace(w: Whitespace, c: char) {
    match w
    case JsWhitespace => IsJsSpace(c)
    case PyWhitespace => IsPySpace(c)
  }

  /** The index of the first character at or after i that is not whitespace of class w
      (|s| if there is none). */
  function ContentStart(s: string, w: Whitespace, i: nat): (r: nat)
    requires i <= |s|
    ensures i <= r <= |s|
    ensures r < |s| ==> !IsSpace(w, s[r])
    decreases |s| - i
  {
    if i < |s| && IsSpace(w, s[i]) then ContentStart(s, w, i + 1) else i
  }

  /** One past the index of the last character in [lo, j) that is not whitespace of class w
      (lo if there is none). */
  function ContentEnd(s: string, w: Whitespace, lo: nat, j: nat): (r: nat)
    requires lo <= j <= |s|
    ensures lo <= r <= j
    ensures r > lo ==> !IsSpace(w, s[r - 1])
    decreases j
  {
    if j > lo && IsSpace(w, s[j - 1]) then ContentEnd(s, w, lo, j - 1) else j
  }

  /** ContentStart skips whitespace only. */
  lemma {:induction false} ContentStartSkipsSpace(s: string, w: Whitespace, i: nat)
    requires i <= |s|
    ensures forall k :: i <= k < ContentStart(s, w, i) ==> IsSpace(w, s[k])
    decreases |s| - i
  {
    if i < |s| && IsSpace(w, s[i]) {
      ContentStartSkipsSpace(s, w, i + 1);
    }
  }

  /** ContentEnd skips whitespace only. */
  lemma {:induction false} ContentEndSkipsSpace(s: string, w: Whitespace, lo: nat, j: nat)
    requires lo <= j <= |s|
    ensures forall k :: ContentEnd(s, w, lo, j) <= k < j ==> IsSpace(w, s[k])
    decreases j
  {
    if j > lo && IsSpace(w, s[j - 1]) {
      ContentEndSkipsSpace(s, w, lo, j - 1);
    }
  }

  /** Drops leading and trailing whitespace of class w. */
  function Trim(s: string, w: Whitespace): (r: string)
    ensures r == [] || (!IsSpace(w, r[0]) && !IsSpace(w, r[|r| - 1]))
    ensures |r| <= |s|
  {
    var a := ContentStart(s, w, 0);
    s[a..ContentEnd(s, w, a, |s|)]
  }

  /** Trimming introduces no character: a character absent from s is absent from the result. */
  lemma TrimAvoids(s: string, w: Whitespace, c: char)
    requires c !in s
    ensures c !in Trim(s, w)
  {
    var a := ContentStart(s, w, 0);
    assert Trim(s, w) == s[a..ContentEnd(s, w, a, |s|)];
  }

  /** JavaScript's line.trim(). */
  function JsTrim(s: string): string { Trim(s, JsWhitespace) }

  /** Python's line.strip() with no argument. */
  function PyStrip(s: string): string { Trim(s, PyWhitespace) }

  /** [part.strip() for part in parts] */
  function StripAll(parts: seq<string>): (r: seq<string>)
    ensures |r| == |parts|
  {
    seq(|parts|, i requires 0 <= i < |parts| => PyStrip(parts[i]))
  }

  predicate StartsWith(s: string, prefix: string) {
    |prefix| <= |s| && s[..|prefix|] == prefix
  }

  predicate EndsWith(s: string, suffix: string) {
    |suffix| <= |s| && s[|s| - |suffix|..] == suffix
  }

  /** s.split(sep) in both JavaScript and Python: the pieces between occurrences of sep,
      including empty ones; the empty string splits into one empty piece. */
  function Split(s: string, sep: char): (r: seq<string>)
    ensures |r| >= 1
    decreases |s|
  {
    if s == [] then [""]
    else
      var rest := Split(s[1..], sep);
      if s[0] == sep then [""] + rest else [[s[0]] + rest[0]] + rest[1..]
  }

  /** sep.join(parts) in Python, parts.join(sep) in JavaScript. */
  function Join(parts: seq<string>, sep: string): string
    decreases |parts|
  {
    if |parts| == 0 then ""
    else if |parts| == 1 then parts[0]
    else parts[0] + sep + Join(parts[1..], sep)
  }

  /** The position of the first occurrence of c (indexOf in JavaScript, find in Python). */
  function IndexOf(s: string, c: char): (r: nat)
    requires c in s
    ensures r < |s| && s[r] == c && c !in s[..r]
  {
    if s[0] == c then 0
    else
      assert c in s[1..] by { assert s == [s[0]] + s[1..]; }
      var r := 1 + IndexOf(s[1..], c);
      assert s[..r] == [s[0]] + s[1..][..r - 1];
      r
  }

  /** Deletes every occurrence of c (Python's s.replace(c, '')). */
  function Remove(s: string, c: char): (r: string)
    ensures c !in r
    ensures |r| <= |s|
    ensures forall x :: x != c ==> (x in r <==> x in s)
  {
    if s == [] then ""
    else (if s[0] == c then "" else [s[0]]) + Remove(s[1..], c)
  }

  /** Deleting from a single character keeps it exactly when it is not c. */
  lemma RemoveOne(x: char, c: char)
    ensures Remove([x], c) == if x == c then "" else [x]
  {
    assert [x][1..] == [];
  }

  /** Deletion works piece by piece: with RemoveOne this fixes Remove on every text, so the
      other characters stay, in their order. */
  lemma {:induction false} RemoveConcat(s1: string, s2: string, c: char)
    ensures Remove(s1 + s2, c) == Remove(s1, c) + Remove(s2, c)
  {
    if s1 != [] {
      assert (s1 + s2)[0] == s1[0];
      assert (s1 + s2)[1..] == s1[1..] + s2;
      RemoveConcat(s1[1..], s2, c);
      var head := if s1[0] == c then "" else [s1[0]];
      calc {
        Remove(s1 + s2, c);
        head + Remove(s1[1..] + s2, c);
        head + (Remove(s1[1..], c) + Remove(s2, c));
        (head + Remove(s1[1..], c)) + Remove(s2, c);
      }
    } else {
      assert s1 + s2 == s2;
    }
  }

  function DigitChar(d: nat): (c: char)
    requires d < 10
    ensures '0' <= c <= '9'
  {
    ['0', '1', '2', '3', '4', '5', '6', '7', '8', '9'][d]
  }

  /** The decimal rendering of n, as a template literal or an f-string prints a number. */
  function NatToString(n: nat): (r: string)
    ensures |r| >= 1
    ensures forall k :: 0 <= k < |r| ==> '0' <= r[k] <= '9'
  {
    if n < 10 then [DigitChar(n)] else NatToString(n / 10) + [DigitChar(n % 10)]
  }

  /** Reads a string of decimal digits back as a number. */
  function DigitsValue(s: string): nat
    requires forall k :: 0 <= k < |s| ==> '0' <= s[k] <= '9'
  {
    if s == [] then 0 else 10 * DigitsValue(s[..|s| - 1]) + ((s[|s| - 1] as int) - ('0' as int))
  }

  lemma DigitCharValue(d: nat)
    requires d < 10
    ensures (DigitChar(d) as int) - ('0' as int) == d
  {
  }

  /** Decimal rendering is invertible: a line number printed in a message can be read back. */
  lemma {:induction false} NatToStringRoundTrip(n: nat)
    ensures DigitsValue(NatToString(n)) == n
  {
    var r := NatToString(n);
    if n < 10 {
      DigitCharValue(n);
    } else {
      NatToStringRoundTrip(n / 10);
      DigitCharValue(n % 10);
      assert r[..|r| - 1] == NatToString(n / 10);
    }
  }

  // ---------------------------------------------------------------------------------------
  // Split and Join are inverse to each other.

  lemma {:induction false} SplitPiecesAvoidSep(s: string, sep: char)
    ensures forall k :: 0 <= k < |Split(s, sep)| ==> sep !in Split(s, sep)[k]
    decreases |s|
  {
    if s != [] {
      SplitPiecesAvoidSep(s[1..], sep);
      var rest := Split(s[1..], sep);
      if s[0] != sep {
        assert forall k :: 1 <= k < |Split(s, sep)| ==> Split(s, sep)[k] == rest[k];
      }
    }
  }

  lemma {:induction false} JoinSplit(s: string, sep: char)
    ensures Join(Split(s, sep), [sep]) == s
    decreases |s|
  {
    if s != [] {
      var rest := Split(s[1..], sep);
      JoinSplit(s[1..], sep);
      if s[0] == sep {
        assert Split(s, sep) == [""] + rest;
        assert Join([""] + rest, [sep]) == "" + [sep] + Join(rest, [sep]);
      } else {
        var r := Split(s, sep);
        assert r == [[s[0]] + rest[0]] + rest[1..];
        if |rest| == 1 {
          assert Join(r, [sep]) == [s[0]] + rest[0];
        } else {
          assert Join(rest, [sep]) == rest[0] + [sep] + Join(rest[1..], [sep]);
          assert r[1..] == rest[1..];
          assert Join(r, [sep]) == [s[0]] + rest[0] + [sep] + Join(rest[1..], [sep]);
        }
      }
    }
  }

  lemma {:induction false} SplitNoSep(s: string, sep: char)
    requires sep !in s
    ensures Split(s, sep) == [s]
    decreases |s|
  {
    if s != [] {
      SplitNoSep(s[1..], sep);
      assert [s[0]] + s[1..] == s;
    }
  }

  lemma {:induction false} SplitAtSep(a: string, sep: char, b: string)
    requires sep !in a
    ensures Split(a + [sep] + b, sep) == [a] + Split(b, sep)
    decreases |a|
  {
    if a == [] {
      assert a + [sep] + b == [sep] + b;
      assert ([sep] + b)[1..] == b;
    } else {
      SplitAtSep(a[1..], sep, b);
      assert (a + [sep] + b)[1..] == a[1..] + [sep] + b;
      assert [a[0]] + a[1..] == a;
    }
  }

  /** Splitting a joined list gives the list back, as long as no piece contains the separator. */
  lemma {:induction false} SplitJoin(parts: seq<string>, sep: char)
    requires |parts| >= 1
    requires forall k :: 0 <= k < |parts| ==> sep !in parts[k]
    ensures Split(Join(parts, [sep]), sep) == parts
    decreases |parts|
  {
    if |parts| == 1 {
      SplitNoSep(parts[0], sep);
    } else {
      SplitJoin(parts[1..], sep);
      SplitAtSep(parts[0], sep, Join(parts[1..], [sep]));
      assert [parts[0]] + parts[1..] == parts;
    }
  }

  /** Appending a part to a non-empty list appends the separator and the part to the text. */
  lemma {:induction false} JoinSnoc(parts: seq<string>, last: string, sep: string)
    requires |parts| >= 1
    ensures Join(parts + [last], sep) == Join(parts, sep) + sep + last
    decreases |parts|
  {
    if |parts| > 1 {
      JoinSnoc(parts[1..], last, sep);
      assert (parts + [last])[1..] == parts[1..] + [last];
    }
  }

  /** The number of occurrences of c in s. */
  function Count(s: string, c: char): (n: nat)
    ensures n <= |s|
    decreases |s|
  {
    if s == [] then 0 else Count(s[..|s| - 1], c) + (if s[|s| - 1] == c then 1 else 0)
  }

  /** Counting distributes over concatenation. */
  lemma {:induction false} CountConcat(a: string, b: string, c: char)
    ensures Count(a + b, c) == Count(a, c) + Count(b, c)
    decreases |b|
  {
    if b != [] {
      var n := |b| - 1;
      assert (a + b)[..|a + b| - 1] == a + b[..n];
      CountConcat(a, b[..n], c);
    } else {
      assert a + b == a;
    }
  }

  /** A character that does not occur counts zero. */
  lemma {:induction false} CountAbsent(s: string, c: char)
    requires c !in s
    ensures Count(s, c) == 0
    decreases |s|
  {
    if s != [] {
      assert s[..|s| - 1] <= s;
      CountAbsent(s[..|s| - 1], c);
    }
  }

  /** Each line followed by a line feed, as text is built line by line with += ... "\n". */
  function Terminated(lines: seq<string>): string {
    if lines == [] then ""
    else Terminated(lines[..|lines| - 1]) + (lines[|lines| - 1] + "\n")
  }

  /** Appending a line appends it with its line feed. */
  lemma TerminatedSnoc(lines: seq<string>, last: string)
    ensures Terminated(lines + [last]) == Terminated(lines) + (last + "\n")
  {
    assert (lines + [last])[..|lines|] == lines;
  }

  lemma {:induction false} TerminatedConcat(a: seq<string>, b: seq<string>)
    ensures Terminated(a + b) == Terminated(a) + Terminated(b)
    decreases |b|
  {
    if b == [] {
      assert a + b == a;
    } else {
      var n := |b| - 1;
      assert (a + b)[..|a + b| - 1] == a + b[..n];
      TerminatedConcat(a, b[..n]);
    }
  }

  /** Terminating every line is joining the lines and one empty line with line feeds. */
  lemma {:induction false} TerminatedJoin(lines: seq<string>)
    ensures Join(lines + [""], "\n") == Terminated(lines)
    decreases |lines|
  {
    if lines != [] {
      var init := lines[..|lines| - 1];
      var last := lines[|lines| - 1];
      assert lines == init + [last];
      JoinSnoc(lines, "", "\n");
      if init == [] {
        assert Join(lines, "\n") == last;
        assert Terminated(init) == "";
      } else {
        TerminatedJoin(init);
        JoinSnoc(init, "", "\n");
        JoinSnoc(init, last, "\n");
      }
    }
  }

  /** A character in no part and not in the separator is not in the joined text. */
  lemma {:induction false} JoinAvoids(parts: seq<string>, sep: string, c: char)
    requires c !in sep && forall k :: 0 <= k < |parts| ==> c !in parts[k]
    ensures c !in Join(parts, sep)
    decreases |parts|
  {
    if |parts| > 1 {
      JoinAvoids(parts[1..], sep, c);
    }
  }

  /** The pieces of a split hold only characters of the text. */
  lemma {:induction false} SplitPiecesAvoid(s: string, sep: char, c: char)
    requires c !in s
    ensures forall k :: 0 <= k < |Split(s, sep)| ==> c !in Split(s, sep)[k]
    decreases |s|
  {
    if s != [] {
      assert c !in s[1..] by { assert forall k :: 0 <= k < |s[1..]| ==> s[1..][k] == s[k + 1]; }
      SplitPiecesAvoid(s[1..], sep, c);
      var rest := Split(s[1..], sep);
      if s[0] != sep {
        assert forall k :: 1 <= k < |Split(s, sep)| ==> Split(s, sep)[k] == rest[k];
      }
    }
  }

  // ---------------------------------------------------------------------------------------
  // Facts about trimming.

  /** A trimmed string that starts with p, where p ends in whitespace of class w, is longer
      than that prefix, and what follows the prefix does not trim to nothing. */
  lemma TrimmedRemainderNonBlank(t: string, p: string, w: Whitespace)
    requires t == [] || (!IsSpace(w, t[0]) && !IsSpace(w, t[|t| - 1]))
    requires |p| >= 1 && IsSpace(w, p[|p| - 1]) && StartsWith(t, p)
    ensures |t| > |p|
    ensures Trim(t[|p|..], w) != ""
  {
    var rest := t[|p|..];
    assert t[..|p|][|p| - 1] == t[|p| - 1];
    assert IsSpace(w, t[|p| - 1]);
    assert rest[|rest| - 1] == t[|t| - 1];
    TrimNonBlank(rest, w, |rest| - 1);
  }

  /** A string that holds a character outside the class w does not trim to nothing. */
  lemma TrimNonBlank(s: string, w: Whitespace, k: nat)
    requires k < |s| && !IsSpace(w, s[k])
    ensures Trim(s, w) != ""
  {
    ContentStartSkipsSpace(s, w, 0);
    ContentEndSkipsSpace(s, w, ContentStart(s, w, 0), |s|);
  }

  /** If every character of s is classified alike by w1 and w2, trimming by either agrees. */
  lemma TrimAgrees(s: string, w1: Whitespace, w2: Whitespace)
    requires forall k :: 0 <= k < |s| ==> IsSpace(w1, s[k]) == IsSpace(w2, s[k])
    ensures Trim(s, w1) == Trim(s, w2)
  {
    ContentStartAgrees(s, w1, w2, 0);
    ContentEndAgrees(s, w1, w2, ContentStart(s, w1, 0), |s|);
  }

  lemma {:induction false} ContentStartAgrees(s: string, w1: Whitespace, w2: Whitespace, i: nat)
    requires i <= |s|
    requires forall k :: 0 <= k < |s| ==> IsSpace(w1, s[k]) == IsSpace(w2, s[k])
    ensures ContentStart(s, w1, i) == ContentStart(s, w2, i)
    decreases |s| - i
  {
    if i < |s| && IsSpace(w1, s[i]) {
      ContentStartAgrees(s, w1, w2, i + 1);
    }
  }

  lemma {:induction false} ContentEndAgrees(s: string, w1: Whitespace, w2: Whitespace,
                                            lo: nat, j: nat)
    requires lo <= j <= |s|
    requires forall k :: 0 <= k < |s| ==> IsSpace(w1, s[k]) == IsSpace(w2, s[k])
    ensures ContentEnd(s, w1, lo, j) == ContentEnd(s, w2, lo, j)
    decreases j
  {
    if j > lo && IsSpace(w1, s[j - 1]) {
      ContentEndAgrees(s, w1, w2, lo, j - 1);
    }
  }

  /** Trimming is idempotent. */
  lemma TrimIdempotent(s: string, w: Whitespace)
    ensures Trim(Trim(s, w), w) == Trim(s, w)
  {
    var r := Trim(s, w);
    if r != [] {
      assert ContentStart(r, w, 0) == 0;
      assert ContentEnd(r, w, 0, |r|) == |r|;
      assert r[0..|r|] == r;
    }
  }
}
