/** The pieces of JavaScript string behaviour the task list depends on:
    truthiness of a value that may be absent, `split('\n')` and `trim()`. */
module JsText {

  /** A value that may be absent (`undefined` or `null`). */
  datatype Option<+T> = None | Some(value: T)

  /** JavaScript truthiness of a possibly absent string: `undefined`, `null` and `""` are falsy. */
  predicate Present(o: Option<string>)
  {
    o.Some? && o.value != ""
  }

  /** The string `o || fallback`. */
  function OrElse(o: Option<string>, fallback: string): (r: string)
    ensures r == fallback || (o.Some? && r == o.value)
    ensures r == "" ==> fallback == ""
  {
    if Present(o) then o.value else fallback
  }

  lemma OrElseNonEmpty(o: Option<string>, fallback: string)
    requires fallback != ""
    ensures OrElse(o, fallback) != ""
    ensures OrElse(o, fallback) == fallback <==> !Present(o) || o.value == fallback
  {
  }

  // ---------------------------------------------------------------------------
  // split('\n')

  /** The index of the first line feed of `s`, or `|s|` when there is none. */
  function LineEnd(s: string): (n: nat)
    ensures n <= |s|
  {
    if s == [] || s[0] == '\n' then 0 else 1 + LineEnd(s[1..])
  }

  /** `LineEnd` finds the first line feed: none comes before it. */
  lemma {:induction false} LineEndSpec(s: string)
    ensures forall j :: 0 <= j < LineEnd(s) ==> s[j] != '\n'
    ensures LineEnd(s) < |s| ==> s[LineEnd(s)] == '\n'
  {
    if s != [] && s[0] != '\n' {
      LineEndSpec(s[1..]);
      forall j | 1 <= j < LineEnd(s) ensures s[j] != '\n' { assert s[j] == s[1..][j - 1]; }
    }
  }

  /** `s.split('\n')`: the piece before the first line feed, then the pieces of
      what follows it; a string without a line feed is one piece (and "" is [""]). */
  function Split(s: string): (lines: seq<string>)
    ensures |lines| >= 1
    decreases |s|
  {
    var n := LineEnd(s);
    if n == |s| then [s] else [s[..n]] + Split(s[n + 1..])
  }

  /** No piece of a split contains a line feed. */
  lemma {:induction false} SplitPiecesNoBreak(s: string)
    ensures forall i :: 0 <= i < |Split(s)| ==> '\n' !in Split(s)[i]
    decreases |s|
  {
    var n := LineEnd(s);
    LineEndSpec(s);
    if n < |s| {
      SplitPiecesNoBreak(s[n + 1..]);
      assert '\n' !in s[..n] by {
        forall j | 0 <= j < n ensures s[..n][j] != '\n' { assert s[..n][j] == s[j]; }
      }
    }
  }

  /** `lines.join('\n')`, the inverse of `Split`. */
  function Join(lines: seq<string>): string
    requires |lines| >= 1
  {
    if |lines| == 1 then lines[0] else lines[0] + "\n" + Join(lines[1..])
  }

  /** Joining the pieces again gives back the original string: nothing is lost by the split. */
  lemma {:induction false} JoinSplit(s: string)
    ensures Join(Split(s)) == s
    decreases |s|
  {
    var n := LineEnd(s);
    if n < |s| {
      var t := s[n + 1..];
      var rest := Split(t);
      LineEndSpec(s);
      JoinSplit(t);
      assert Split(s) == [s[..n]] + rest;
      assert Join(Split(s)) == s[..n] + "\n" + Join(rest) by {
        assert Split(s)[1..] == rest;
      }
      assert s == s[..n] + "\n" + t;
    }
  }

  /** A string with no line feed is a single piece. */
  lemma SplitSingle(a: string)
    requires '\n' !in a
    ensures Split(a) == [a]
  {
    LineEndSpec(a);
  }

  /** The first line feed is the only index with no line feed before it and a
      line feed (or the end) at it. */
  lemma LineEndUnique(s: string, n: nat)
    requires n <= |s|
    requires forall j :: 0 <= j < n ==> s[j] != '\n'
    requires n < |s| ==> s[n] == '\n'
    ensures LineEnd(s) == n
  {
    LineEndSpec(s);
  }

  /** Splitting at a line feed splits the pieces accordingly. */
  lemma {:induction false} SplitAppend(a: string, b: string)
    ensures Split(a + "\n" + b) == Split(a) + Split(b)
    decreases |a|
  {
    var s := a + "\n" + b;
    var n := LineEnd(a);
    assert LineEnd(s) == n by {
      LineEndSpec(a);
      assert forall j :: 0 <= j < n ==> s[j] == a[j];
      assert s[n] == (if n == |a| then '\n' else a[n]);
      LineEndUnique(s, n);
    }
    if n == |a| {
      assert Split(s) == [a] + Split(b) by {
        assert s[..n] == a && s[n + 1..] == b;
      }
    } else {
      var t := a[n + 1..];
      assert Split(s) == [a[..n]] + Split(t + "\n" + b) by {
        assert s[..n] == a[..n];
        assert s[n + 1..] == t + "\n" + b by {
          assert a == a[..n + 1] + t;
          assert s == a[..n + 1] + (t + "\n" + b);
        }
      }
      SplitAppend(t, b);
      assert Split(a) == [a[..n]] + Split(t);
      assert [a[..n]] + (Split(t) + Split(b)) == ([a[..n]] + Split(t)) + Split(b);
    }
  }

  /** Splitting a join of line-feed-free pieces gives back the pieces. */
  lemma {:induction false} SplitJoin(lines: seq<string>)
    requires |lines| >= 1
    requires forall i :: 0 <= i < |lines| ==> '\n' !in lines[i]
    ensures Split(Join(lines)) == lines
  {
    SplitSingle(lines[0]);
    if |lines| > 1 {
      var rest := lines[1..];
      var j := Join(rest);
      assert Split(j) == rest by {
        assert forall i :: 0 <= i < |rest| ==> '\n' !in rest[i] by {
          forall i | 0 <= i < |rest| ensures '\n' !in rest[i] { assert rest[i] == lines[i + 1]; }
        }
        SplitJoin(rest);
      }
      assert Split(Join(lines)) == Split(lines[0]) + Split(j) by {
        assert Join(lines) == lines[0] + "\n" + j;
        SplitAppend(lines[0], j);
      }
      assert lines == [lines[0]] + rest;
    }
  }

  // ---------------------------------------------------------------------------
  // trim()

  /** The characters `trim()` removes: ECMAScript WhiteSpace (tab, vertical tab,
      form feed, space, no-break space, byte order mark and every space separator)
      and LineTerminator (line feed, carriage return, line and paragraph separators). */
  predicate IsSpace(c: char)
  {
    || c == '\U{0009}' || c == '\U{000A}' || c == '\U{000B}' || c == '\U{000C}'
    || c == '\U{000D}' || c == '\U{0020}' || c == '\U{00A0}' || c == '\U{1680}'
    || ('\U{2000}' <= c <= '\U{200A}')
    || c == '\U{2028}' || c == '\U{2029}' || c == '\U{202F}' || c == '\U{205F}'
    || c == '\U{3000}' || c == '\U{FEFF}'
  }

  /** `s` without its leading white space. */
  function TrimStart(s: string): string
  {
    if s != [] && IsSpace(s[0]) then TrimStart(s[1..]) else s
  }

  /** `TrimStart` leaves a suffix of `s`, cuts off only white space, and stops at
      the first non-space character. */
  lemma {:induction false} TrimStartSpec(s: string)
    ensures |TrimStart(s)| <= |s| && TrimStart(s) == s[|s| - |TrimStart(s)|..]
    ensures forall i :: 0 <= i < |s| - |TrimStart(s)| ==> IsSpace(s[i])
    ensures TrimStart(s) == [] || !IsSpace(TrimStart(s)[0])
  {
    if s != [] && IsSpace(s[0]) {
      TrimStartSpec(s[1..]);
      var r := TrimStart(s);
      assert r == TrimStart(s[1..]);
      forall i | 1 <= i < |s| - |r| ensures IsSpace(s[i]) {
        assert s[i] == s[1..][i - 1];
      }
    }
  }

  /** `s` without its trailing white space. */
  function TrimEnd(s: string): string
  {
    if s != [] && IsSpace(s[|s| - 1]) then TrimEnd(s[..|s| - 1]) else s
  }

  /** `TrimEnd` leaves a prefix of `s`, cuts off only white space, and stops at
      the last non-space character. */
  lemma {:induction false} TrimEndSpec(s: string)
    ensures |TrimEnd(s)| <= |s| && TrimEnd(s) == s[..|TrimEnd(s)|]
    ensures forall i :: |TrimEnd(s)| <= i < |s| ==> IsSpace(s[i])
    ensures TrimEnd(s) == [] || !IsSpace(TrimEnd(s)[|TrimEnd(s)| - 1])
  {
    if s != [] && IsSpace(s[|s| - 1]) {
      TrimEndSpec(s[..|s| - 1]);
      var r := TrimEnd(s);
      assert r == TrimEnd(s[..|s| - 1]);
      forall i | |r| <= i < |s| - 1 ensures IsSpace(s[i]) {
        assert s[i] == s[..|s| - 1][i];
      }
    }
  }

  /** How many characters `trim()` drops from the front of `s`. */
  function LeadingSpaces(s: string): nat
  {
    TrimStartSpec(s);
    |s| - |TrimStart(s)|
  }

  /** `s.trim()`: `s` without white space at either end. */
  function Trim(s: string): (r: string)
    ensures |r| <= |s|
  {
    TrimStartSpec(s);
    TrimEndSpec(TrimStart(s));
    TrimEnd(TrimStart(s))
  }

  /** `trim()` leaves a contiguous piece of `s`. */
  lemma TrimIsPiece(s: string)
    ensures LeadingSpaces(s) + |Trim(s)| <= |s|
    ensures Trim(s) == s[LeadingSpaces(s)..LeadingSpaces(s) + |Trim(s)|]
  {
    TrimStartSpec(s);
    var t := TrimStart(s);
    TrimEndSpec(t);
    var k := LeadingSpaces(s);
    assert t == s[k..];
    assert Trim(s) == t[..|Trim(s)|];
  }

  /** Everything `trim()` cuts off is white space. */
  lemma TrimCutsOnlySpace(s: string)
    ensures forall i :: 0 <= i < LeadingSpaces(s) ==> IsSpace(s[i])
    ensures forall i :: LeadingSpaces(s) + |Trim(s)| <= i < |s| ==> IsSpace(s[i])
  {
    TrimStartSpec(s);
    var t := TrimStart(s);
    TrimEndSpec(t);
    var k := LeadingSpaces(s);
    forall i | k + |Trim(s)| <= i < |s| ensures IsSpace(s[i]) {
      assert s[i] == t[i - k];
    }
  }

  /** Unless nothing is left, what `trim()` leaves starts and ends with a non-space character. */
  lemma TrimEndsNonSpace(s: string)
    ensures Trim(s) == [] || (!IsSpace(Trim(s)[0]) && !IsSpace(Trim(s)[|Trim(s)| - 1]))
  {
    TrimStartSpec(s);
    var t := TrimStart(s);
    TrimEndSpec(t);
    var r := Trim(s);
    assert r == [] || r[0] == t[0];
  }

  /** What `trim()` leaves, completely: a piece of `s` such that everything cut off
      is white space and, unless nothing is left, the piece starts and ends with a
      non-space character. These facts determine the piece. */
  lemma TrimSpec(s: string)
    ensures LeadingSpaces(s) + |Trim(s)| <= |s|
    ensures Trim(s) == s[LeadingSpaces(s)..LeadingSpaces(s) + |Trim(s)|]
    ensures forall i :: 0 <= i < LeadingSpaces(s) ==> IsSpace(s[i])
    ensures forall i :: LeadingSpaces(s) + |Trim(s)| <= i < |s| ==> IsSpace(s[i])
    ensures Trim(s) == [] || (!IsSpace(Trim(s)[0]) && !IsSpace(Trim(s)[|Trim(s)| - 1]))
  {
    TrimIsPiece(s);
    TrimCutsOnlySpace(s);
    TrimEndsNonSpace(s);
  }

  /** `trim()` is idempotent: a trimmed string has no white space left at either end. */
  lemma TrimIdempotent(s: string)
    ensures Trim(Trim(s)) == Trim(s)
  {
    var r := Trim(s);
    TrimEndsNonSpace(s);
    assert TrimStart(r) == r;
  }

  /** A string that neither starts nor ends with white space is its own trim. */
  lemma TrimUnchanged(s: string)
    requires s != [] && !IsSpace(s[0]) && !IsSpace(s[|s| - 1])
    ensures Trim(s) == s
  {
  }

  /** `s.trim()` is falsy exactly when `s` is made of white space only. */
  lemma TrimEmptyIffBlank(s: string)
    ensures Trim(s) == [] <==> forall i :: 0 <= i < |s| ==> IsSpace(s[i])
  {
    var r := Trim(s);
    TrimIsPiece(s);
    TrimCutsOnlySpace(s);
    TrimEndsNonSpace(s);
    if r != [] {
      assert s[LeadingSpaces(s)] == r[0];
    }
  }
}
