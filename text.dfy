/** Text helpers of caniuse/util/text.py: whitespace collapsing, ellipsizing
    and note-marker extraction. */
module Text {
  import opened Strings

  // ---------------------------------------------------------------------------
  // normalize_whitespace

  /** No whitespace character other than ' ', and never two whitespace
      characters side by side. */
  predicate SingleSpaced(s: string) {
    (forall i :: 0 <= i < |s| && IsSpace(s[i]) ==> s[i] == ' ')
    && (forall i :: 0 <= i < |s| - 1 ==> !IsSpace(s[i]) || !IsSpace(s[i + 1]))
  }

  /** The shape `normalize_whitespace` promises: single-spaced, no whitespace
      at either end. */
  predicate Normalized(s: string) {
    SingleSpaced(s) && (s == [] || (!IsSpace(s[0]) && !IsSpace(s[|s| - 1])))
  }

  /** `re.sub(r"\s+", " ", s)`: every maximal whitespace run becomes one space. */
  function CollapseRuns(s: string): string
    decreases |s|
  {
    if s == [] then []
    else if IsSpace(s[0]) then " " + CollapseRuns(TrimStart(s))
    else [s[0]] + CollapseRuns(s[1..])
  }

  /** The substitution leaves single-spaced text, and starts with whitespace
      exactly when its input does. */
  lemma {:induction false} CollapseRunsShape(s: string)
    ensures SingleSpaced(CollapseRuns(s))
    ensures s != [] ==> CollapseRuns(s) != [] && (IsSpace(s[0]) <==> IsSpace(CollapseRuns(s)[0]))
    decreases |s|
  {
    if s == [] {
    } else if IsSpace(s[0]) {
      var t := TrimStart(s);
      CollapseRunsShape(t);
      var c := CollapseRuns(t);
      assert CollapseRuns(s) == [' '] + c;
      SingleSpacedCons(' ', c);
    } else {
      CollapseRunsShape(s[1..]);
      var c := CollapseRuns(s[1..]);
      assert CollapseRuns(s) == [s[0]] + c;
      SingleSpacedCons(s[0], c);
    }
  }

  /** Putting a character in front of single-spaced text keeps it single-spaced
      when the two do not form a whitespace pair. */
  lemma SingleSpacedCons(c: char, s: string)
    requires SingleSpaced(s)
    requires IsSpace(c) ==> c == ' ' && (s == [] || !IsSpace(s[0]))
    ensures SingleSpaced([c] + s)
  {
    var r := [c] + s;
    forall i | 0 <= i < |r| - 1 ensures !IsSpace(r[i]) || !IsSpace(r[i + 1]) {
      if i > 0 { assert r[i] == s[i - 1] && r[i + 1] == s[i]; }
    }
    forall i | 0 <= i < |r| && IsSpace(r[i]) ensures r[i] == ' ' {
      if i > 0 { assert r[i] == s[i - 1]; }
    }
  }

  lemma SingleSpacedSlice(s: string, lo: int, hi: int)
    requires SingleSpaced(s) && 0 <= lo <= hi <= |s|
    ensures SingleSpaced(s[lo..hi])
  {
    var r := s[lo..hi];
    forall i | 0 <= i < |r| - 1 ensures !IsSpace(r[i]) || !IsSpace(r[i + 1]) {
      assert r[i] == s[lo + i] && r[i + 1] == s[lo + i + 1];
    }
  }

  /** `normalize_whitespace`: collapse whitespace runs, then strip both ends. */
  function NormalizeWhitespace(s: string): (r: string)
    ensures Normalized(r)
  {
    CollapseRunsShape(s);
    StripSingleSpaced(CollapseRuns(s));
    Strip(CollapseRuns(s))
  }

  /** Stripping single-spaced text leaves normalized text. */
  lemma StripSingleSpaced(c: string)
    requires SingleSpaced(c)
    ensures Normalized(Strip(c))
  {
    var d := TrimStart(c);
    SingleSpacedSlice(c, |c| - |d|, |c|);
    var e := TrimEnd(d);
    SingleSpacedSlice(d, 0, |e|);
  }

  /** Single-spaced text has no run of two whitespace characters to collapse. */
  lemma {:induction false} CollapseSingleSpaced(s: string)
    requires SingleSpaced(s)
    ensures CollapseRuns(s) == s
    decreases |s|
  {
    if s != [] {
      var t := s[1..];
      assert CollapseRuns(t) == t by {
        SingleSpacedSlice(s, 1, |s|);
        CollapseSingleSpaced(t);
      }
      if IsSpace(s[0]) {
        assert TrimStart(s) == t by {
          assert t == [] || t[0] == s[1];
        }
        assert s == " " + t;
      } else {
        assert s == [s[0]] + t;
      }
    }
  }

  /** normalize_whitespace is idempotent. */
  lemma NormalizeIdempotent(s: string)
    ensures NormalizeWhitespace(NormalizeWhitespace(s)) == NormalizeWhitespace(s)
  {
    var n := NormalizeWhitespace(s);
    CollapseSingleSpaced(n);
    StripClean(n);
  }

  // normalize_whitespace and str.split agree: joining the words with single
  // spaces gives the normalized text.

  lemma {:induction false} JoinWordsEdges(ws: seq<string>)
    requires AreWords(ws)
    ensures var j := Join(" ", ws); (j == [] <==> ws == []) && (j == [] || (!IsSpace(j[0]) && !IsSpace(j[|j| - 1])))
  {
    if |ws| > 1 {
      assert AreWords(ws[1..]) by {
        forall i | 0 <= i < |ws[1..]| ensures ws[1..][i] != [] && NoSpace(ws[1..][i]) {
          assert ws[1..][i] == ws[i + 1];
        }
      }
      JoinWordsEdges(ws[1..]);
      var j := Join(" ", ws);
      assert j == ws[0] + " " + Join(" ", ws[1..]);
      assert j[0] == ws[0][0];
    } else if |ws| == 1 {
      assert ws[0] != [] && NoSpace(ws[0]);
    }
  }

  lemma {:induction false} CollapseWordThen(w: string, rest: string)
    requires NoSpace(w)
    ensures CollapseRuns(w + rest) == w + CollapseRuns(rest)
    decreases |w|
  {
    if w != [] {
      var s := w + rest;
      assert s[0] == w[0] && !IsSpace(w[0]);
      assert s[1..] == w[1..] + rest;
      assert CollapseRuns(s) == [w[0]] + CollapseRuns(w[1..] + rest);
      assert NoSpace(w[1..]) by {
        forall i | 0 <= i < |w[1..]| ensures !IsSpace(w[1..][i]) { assert w[1..][i] == w[i + 1]; }
      }
      CollapseWordThen(w[1..], rest);
      assert w == [w[0]] + w[1..];
    } else {
      assert w + rest == rest;
    }
  }

  /** `str.split()` ignores leading whitespace. */
  lemma WordsSkipLead(s: string)
    ensures Words(s) == Words(TrimStart(s))
  {
    var u := TrimStart(s);
    if u != [] { assert TrimStart(u) == u; }
  }

  /** Text starting with a non-whitespace character splits into its first word
      and the words of what follows it. */
  lemma WordsFirst(s: string)
    requires s != [] && !IsSpace(s[0])
    ensures var w := WordPrefix(s);
      w != [] && NoSpace(w) && Words(s) == [w] + Words(s[|w|..])
      && (|w| < |s| ==> IsSpace(s[|w|]))
  {
    assert TrimStart(s) == s;
  }

  lemma JoinCons(w: string, ws: seq<string>)
    requires ws != []
    ensures Join(" ", [w] + ws) == w + " " + Join(" ", ws)
  {
    assert ([w] + ws)[1..] == ws;
  }

  /** " " when `s` ends in whitespace, "" otherwise. */
  function TrailingSpace(s: string): string {
    if s != [] && IsSpace(s[|s| - 1]) then " " else ""
  }

  /** On text that does not start with whitespace, the substitution yields the
      words joined by single spaces, plus one space if the text ends in whitespace. */
  lemma {:induction false} CollapseAsWords(s: string)
    requires s == [] || !IsSpace(s[0])
    ensures CollapseRuns(s) == Join(" ", Words(s)) + TrailingSpace(s)
    decreases |s|, 3
  {
    if s != [] {
      var w := WordPrefix(s);
      FirstWordCollapse(s);
      CollapseAfterWord(s, w, s[|w|..]);
    }
  }

  /** Text starting with a non-whitespace character: its first word, then
      the words of what follows, and the substitution keeps that word. */
  lemma FirstWordCollapse(s: string)
    requires s != [] && !IsSpace(s[0])
    ensures var w := WordPrefix(s); var rest := s[|w|..];
      && w != [] && NoSpace(w) && Words(s) == [w] + Words(rest) && (rest == [] || IsSpace(rest[0]))
      && CollapseRuns(s) == w + CollapseRuns(rest)
  {
    var w := WordPrefix(s);
    var rest := s[|w|..];
    WordsFirst(s);
    SplitJoin(s, |w|);
    CollapseWordThen(w, rest);
  }

  lemma {:induction false} CollapseAfterWord(s: string, w: string, rest: string)
    requires w != [] && NoSpace(w) && |w| <= |s| && w == s[..|w|] && rest == s[|w|..]
    requires rest == [] || IsSpace(rest[0])
    requires Words(s) == [w] + Words(rest)
    requires CollapseRuns(s) == w + CollapseRuns(rest)
    ensures CollapseRuns(s) == Join(" ", Words(s)) + TrailingSpace(s)
    decreases |s|, 2
  {
    if rest == [] {
      NoTrailingSpace(s, w);
      GlueOneWord(CollapseRuns(s), w, CollapseRuns(rest), Words(s), Words(rest), TrailingSpace(s));
    } else {
      CollapseAfterSpaces(s, w, rest);
    }
  }

  lemma {:induction false} CollapseAfterSpaces(s: string, w: string, rest: string)
    requires |w| < |s| && rest == s[|w|..] && IsSpace(rest[0])
    requires Words(s) == [w] + Words(rest)
    requires CollapseRuns(s) == w + CollapseRuns(rest)
    ensures CollapseRuns(s) == Join(" ", Words(s)) + TrailingSpace(s)
    decreases |s|, 1
  {
    var u := TrimStart(rest);
    assert CollapseRuns(rest) == " " + CollapseRuns(u);
    assert Words(rest) == Words(u) by { WordsSkipLead(rest); }
    assert TrailingSpace(s) == TrailingSpace(rest) by { TrailingSuffix(s, |w|, rest); }
    assert TrailingSpace(rest) == if u == [] then " " else TrailingSpace(u) by {
      TrailingAfterSpaces(rest, u);
    }
    if u == [] {
      GlueLastWord(CollapseRuns(s), w, Words(s), TrailingSpace(s));
    } else {
      CollapseAfterWords(s, w, rest, u);
    }
  }

  lemma {:induction false} CollapseAfterWords(s: string, w: string, rest: string, u: string)
    requires u != [] && u == TrimStart(rest) && |u| < |s|
    requires CollapseRuns(s) == w + (" " + CollapseRuns(u))
    requires Words(s) == [w] + Words(u)
    requires TrailingSpace(s) == TrailingSpace(u)
    ensures CollapseRuns(s) == Join(" ", Words(s)) + TrailingSpace(s)
    decreases |s|, 0
  {
    assert CollapseRuns(u) == Join(" ", Words(u)) + TrailingSpace(u) by { CollapseAsWords(u); }
    assert Words(u) != [] by { WordsFirst(u); }
    GlueMoreWords(CollapseRuns(s), w, Words(s), CollapseRuns(u), Words(u), TrailingSpace(s));
  }

  lemma TrailingSuffix(s: string, k: int, rest: string)
    requires 0 <= k < |s| && rest == s[k..]
    ensures TrailingSpace(s) == TrailingSpace(rest)
  {
    assert s[|s| - 1] == rest[|rest| - 1];
  }

  lemma TrailingAfterSpaces(rest: string, u: string)
    requires rest != [] && IsSpace(rest[0]) && u == TrimStart(rest)
    ensures TrailingSpace(rest) == if u == [] then " " else TrailingSpace(u)
  {
    if u != [] {
      TrailingSuffix(rest, |rest| - |u|, u);
    } else {
      assert IsSpace(rest[|rest| - 1]);
    }
  }

  lemma NoTrailingSpace(s: string, w: string)
    requires w != [] && NoSpace(w) && |w| == |s| && w == s[..|w|]
    ensures TrailingSpace(s) == ""
  {
    assert s[|s| - 1] == w[|w| - 1];
  }

  lemma GlueOneWord(c: string, w: string, cr: string, ws: seq<string>, wr: seq<string>, t: string)
    requires c == w + cr && cr == [] && ws == [w] + wr && wr == [] && t == ""
    ensures c == Join(" ", ws) + t
  {
    assert ws == [w];
    assert c == w;
  }

  lemma GlueLastWord(c: string, w: string, ws: seq<string>, t: string)
    requires c == w + (" " + CollapseRuns([])) && ws == [w] + Words([]) && t == " "
    ensures c == Join(" ", ws) + t
  {
    assert ws == [w];
  }

  lemma GlueMoreWords(c: string, w: string, ws: seq<string>, cu: string, wu: seq<string>, t: string)
    requires c == w + (" " + cu) && ws == [w] + wu && wu != []
    requires cu == Join(" ", wu) + t
    ensures c == Join(" ", ws) + t
  {
    JoinCons(w, wu);
    SeqAssoc(w, " ", Join(" ", wu), t);
  }

  lemma SeqAssoc(a: string, b: string, c: string, d: string)
    ensures a + (b + (c + d)) == (a + b + c) + d
  {
  }

  lemma {:induction false} DropSpacesBefore(a: string, x: string)
    requires forall i :: 0 <= i < |a| ==> IsSpace(a[i])
    requires x == [] || !IsSpace(x[0])
    ensures TrimStart(a + x) == x
    decreases |a|
  {
    if a != [] {
      assert (a + x)[1..] == a[1..] + x;
      DropSpacesBefore(a[1..], x);
    } else {
      assert a + x == x;
    }
  }

  lemma {:induction false} DropSpacesAfter(x: string, b: string)
    requires forall i :: 0 <= i < |b| ==> IsSpace(b[i])
    requires x == [] || !IsSpace(x[|x| - 1])
    ensures TrimEnd(x + b) == x
    decreases |b|
  {
    if b != [] {
      assert (x + b)[..|x + b| - 1] == x + b[..|b| - 1];
      DropSpacesAfter(x, b[..|b| - 1]);
    } else {
      assert x + b == x;
    }
  }

  /** Stripping text framed by at most one space on each side leaves the text between. */
  lemma StripFramed(c: string, lead: string, j: string, tail: string)
    requires c == lead + (j + tail)
    requires (lead == "" || lead == " ") && (tail == "" || tail == " ")
    requires j == [] || (!IsSpace(j[0]) && !IsSpace(j[|j| - 1]))
    ensures Strip(c) == j
  {
    if j == [] {
      StripBlank(c, lead, tail);
    } else {
      assert TrimStart(c) == j + tail by { DropSpacesBefore(lead, j + tail); }
      assert TrimEnd(j + tail) == j by { DropSpacesAfter(j, tail); }
    }
  }

  lemma StripBlank(c: string, lead: string, tail: string)
    requires c == lead + tail
    requires (lead == "" || lead == " ") && (tail == "" || tail == " ")
    ensures Strip(c) == []
  {
    assert forall i :: 0 <= i < |c| ==> IsSpace(c[i]);
    assert TrimStart(c) == [];
  }

  /** A leading whitespace run becomes one leading space. */
  lemma CollapseLead(s: string)
    ensures CollapseRuns(s) == LeadingSpace(s) + CollapseRuns(TrimStart(s))
  {
    if !(s != [] && IsSpace(s[0])) { assert TrimStart(s) == s; }
  }

  /** " " when `s` starts with whitespace, "" otherwise. */
  function LeadingSpace(s: string): string {
    if s != [] && IsSpace(s[0]) then " " else ""
  }

  /** The words of the normalized text joined back. */
  lemma JoinedWordsClean(u: string)
    ensures var j := Join(" ", Words(u)); j == [] || (!IsSpace(j[0]) && !IsSpace(j[|j| - 1]))
  {
    WordsAreWords(u);
    JoinWordsEdges(Words(u));
  }

  /** Leading whitespace does not change the words. */
  lemma JoinWordsSkipLead(s: string)
    ensures Join(" ", Words(s)) == Join(" ", Words(TrimStart(s)))
  {
    WordsSkipLead(s);
  }

  /** The substitution's output, split into its optional leading space, the
      joined words and its optional trailing space. */
  lemma CollapseFramed(s: string)
    ensures CollapseRuns(s) == LeadingSpace(s) + (Join(" ", Words(TrimStart(s))) + TrailingSpace(TrimStart(s)))
  {
    var u := TrimStart(s);
    assert CollapseRuns(u) == Join(" ", Words(u)) + TrailingSpace(u) by { CollapseAsWords(u); }
    CollapseLead(s);
  }

  /** Stripping the substitution's output leaves exactly the joined words. */
  lemma StripCollapse(s: string)
    ensures Strip(CollapseRuns(s)) == Join(" ", Words(TrimStart(s)))
  {
    var u := TrimStart(s);
    CollapseFramed(s);
    JoinedWordsClean(u);
    StripFramed(CollapseRuns(s), LeadingSpace(s), Join(" ", Words(u)), TrailingSpace(u));
  }

  /** Joining `str.split()`'s words with single spaces is normalize_whitespace. */
  lemma JoinWordsIsNormalized(s: string)
    ensures Join(" ", Words(s)) == NormalizeWhitespace(s)
  {
    JoinWordsSkipLead(s);
    StripCollapse(s);
  }

  // ---------------------------------------------------------------------------
  // ellipsize

  const Ellipsis: char := '\U{2026}'

  function Min(a: int, b: int): int { if a <= b then a else b }

  /** `ellipsize`: cut `value` down to `width` characters, the last of them an
      ellipsis when something was cut. */
  function Ellipsize(value: string, width: int): (r: string)
    ensures width <= 0 ==> r == ""
    ensures width > 0 ==> |r| == Min(|value|, width)
    ensures |value| <= width ==> r == value
    ensures 0 < width < |value| ==> r[..width - 1] == value[..width - 1] && r[width - 1] == Ellipsis
  {
    if width <= 0 then ""
    else if |value| <= width then value
    else if width <= 1 then [Ellipsis]
    else value[..width - 1] + [Ellipsis]
  }

  /** A value already ellipsized to a width is left alone by a second pass. */
  lemma EllipsizeIdempotent(value: string, width: int)
    ensures Ellipsize(Ellipsize(value, width), width) == Ellipsize(value, width)
  {
  }

  // ---------------------------------------------------------------------------
  // extract_note_markers

  /** A token that `re.match(r"^#(\d+)$", token)` accepts: '#', then one or more
      digits, then possibly a single final newline (which `$` lets through). */
  predicate IsNoteToken(t: string) {
    |t| >= 2 && t[0] == '#'
    && (AllDigits(t[1..]) || (|t| >= 3 && t[|t| - 1] == '\n' && AllDigits(t[1..|t| - 1])))
  }

  /** The `(\d+)` group of a note token. */
  function NoteDigits(t: string): (d: string)
    requires IsNoteToken(t)
    ensures d != [] && AllDigits(d)
  {
    if AllDigits(t[1..]) then t[1..] else t[1..|t| - 1]
  }

  /** `extract_note_markers`: the digits of each note token, in order; every
      other token is dropped. */
  function ExtractNoteMarkers(tokens: seq<string>): seq<string> {
    if tokens == [] then []
    else (if IsNoteToken(tokens[0]) then [NoteDigits(tokens[0])] else []) + ExtractNoteMarkers(tokens[1..])
  }

  /** Extraction works token by token: it distributes over concatenation. */
  lemma {:induction false} ExtractNoteMarkersAppend(a: seq<string>, b: seq<string>)
    ensures ExtractNoteMarkers(a + b) == ExtractNoteMarkers(a) + ExtractNoteMarkers(b)
  {
    if a != [] {
      assert (a + b)[1..] == a[1..] + b;
      ExtractNoteMarkersAppend(a[1..], b);
    } else {
      assert a + b == b;
    }
  }

  /** Tokens none of which is a note token give no markers. */
  lemma {:induction false} ExtractNoteMarkersNone(tokens: seq<string>)
    requires forall i :: 0 <= i < |tokens| ==> !IsNoteToken(tokens[i])
    ensures ExtractNoteMarkers(tokens) == []
  {
    if tokens != [] {
      ExtractNoteMarkersNone(tokens[1..]);
    }
  }

  /** Writing each digit string as "#digits" and extracting gives the digit
      strings back, in order. */
  lemma {:induction false} ExtractNoteMarkersRoundTrip(digits: seq<string>)
    requires forall i :: 0 <= i < |digits| ==> digits[i] != [] && AllDigits(digits[i])
    ensures ExtractNoteMarkers(seq(|digits|, i requires 0 <= i < |digits| => "#" + digits[i])) == digits
  {
    var tokens := seq(|digits|, i requires 0 <= i < |digits| => "#" + digits[i]);
    if digits != [] {
      var t := tokens[0];
      assert t[1..] == digits[0];
      assert IsNoteToken(t) && NoteDigits(t) == digits[0];
      ExtractNoteMarkersRoundTrip(digits[1..]);
      assert tokens[1..] == seq(|digits[1..]|, i requires 0 <= i < |digits[1..]| => "#" + digits[1..][i]);
    }
  }

  /** Every marker is a non-empty digit string, at most one per token. */
  lemma {:induction false} ExtractNoteMarkersShape(tokens: seq<string>)
    ensures |ExtractNoteMarkers(tokens)| <= |tokens|
    ensures forall i :: 0 <= i < |ExtractNoteMarkers(tokens)| ==>
      ExtractNoteMarkers(tokens)[i] != [] && AllDigits(ExtractNoteMarkers(tokens)[i])
  {
    if tokens != [] {
      ExtractNoteMarkersShape(tokens[1..]);
      var head := if IsNoteToken(tokens[0]) then [NoteDigits(tokens[0])] else [];
      var m := ExtractNoteMarkers(tokens[1..]);
      assert ExtractNoteMarkers(tokens) == head + m;
      forall i | 0 <= i < |head + m| ensures (head + m)[i] != [] && AllDigits((head + m)[i]) {
        if i < |head| { assert (head + m)[i] == head[i]; } else { assert (head + m)[i] == m[i - |head|]; }
      }
    }
  }
}
