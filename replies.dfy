/** How the food-chain effect routine turns a knowledge-service reply into facts: one line per
    fact, blank lines skipped, the first three comma-separated fields added as a triple. */
module Replies {
  import opened Wrappers

  /** The arguments of one `rete.add` call; a field missing from the line is `undefined`. */
  datatype Triple = Triple(id: string, attr: Option<string>, value: Option<string>)

  /** `String.prototype.split` with a one-character separator. */
  function Split(s: string, sep: char): (parts: seq<string>)
    ensures |parts| >= 1
    ensures forall i :: 0 <= i < |parts| ==> sep !in parts[i]
    decreases |s|
  {
    if s == [] then [""]
    else
      var rest := Split(s[1..], sep);
      if s[0] == sep then [""] + rest else [[s[0]] + rest[0]] + rest[1..]
  }

  /** `Array.prototype.join` with a one-character separator: the inverse of Split. */
  function Join(parts: seq<string>, sep: char): (s: string)
    requires |parts| >= 1
    decreases |parts|
  {
    if |parts| == 1 then parts[0] else parts[0] + [sep] + Join(parts[1..], sep)
  }

  lemma {:induction false} JoinSplit(s: string, sep: char)
    ensures Join(Split(s, sep), sep) == s
    decreases |s|
  {
    if s != [] {
      JoinSplit(s[1..], sep);
      var rest := Split(s[1..], sep);
      if s[0] == sep {
        assert ([""] + rest)[1..] == rest;
      } else {
        var parts := [[s[0]] + rest[0]] + rest[1..];
        if |rest| > 1 {
          assert parts[1..] == rest[1..];
        }
      }
    }
  }

  /** Splitting text that starts with a separator-free piece glues that piece to the first part. */
  lemma {:induction false} SplitPrefix(a: string, b: string, sep: char)
    requires sep !in a
    ensures Split(a + b, sep) == [a + Split(b, sep)[0]] + Split(b, sep)[1..]
    decreases |a|
  {
    var tail := Split(b, sep);
    if a != [] {
      SplitPrefix(a[1..], b, sep);
      assert (a + b)[1..] == a[1..] + b;
      var rest := Split(a[1..] + b, sep);
      assert rest[0] == a[1..] + tail[0] && rest[1..] == tail[1..];
      assert [a[0]] + rest[0] == a + tail[0];
    } else {
      assert a + b == b;
      assert a + tail[0] == tail[0];
      assert [tail[0]] + tail[1..] == tail;
    }
  }

  lemma {:induction false} SplitJoin(parts: seq<string>, sep: char)
    requires |parts| >= 1
    requires forall i :: 0 <= i < |parts| ==> sep !in parts[i]
    ensures Split(Join(parts, sep), sep) == parts
    decreases |parts|
  {
    if |parts| == 1 {
      SplitPrefix(parts[0], "", sep);
      assert parts[0] + "" == parts[0];
    } else {
      var tail := Join(parts[1..], sep);
      SplitJoin(parts[1..], sep);
      assert Join(parts, sep) == parts[0] + ([sep] + tail);
      SplitPrefix(parts[0], [sep] + tail, sep);
      assert ([sep] + tail)[1..] == tail;
      assert parts[0] + "" == parts[0];
      assert [parts[0]] + parts[1..] == parts;
    }
  }

  /** The characters `String.prototype.trim` removes: white space and line terminators. */
  predicate IsWhitespace(c: char)
  {
    var k := c as int;
    || k == 0x09 || k == 0x0A || k == 0x0B || k == 0x0C || k == 0x0D || k == 0x20
    || k == 0xA0 || k == 0x1680 || (0x2000 <= k <= 0x200A) || k == 0x2028 || k == 0x2029
    || k == 0x202F || k == 0x205F || k == 0x3000 || k == 0xFEFF
  }

  /** Drops the leading white space. */
  function TrimStart(s: string): (r: string)
    decreases |s|
  {
    if s != [] && IsWhitespace(s[0]) then TrimStart(s[1..]) else s
  }

  /** Drops the trailing white space. */
  function TrimEnd(s: string): (r: string)
    decreases |s|
  {
    if s != [] && IsWhitespace(s[|s| - 1]) then TrimEnd(s[..|s| - 1]) else s
  }

  /** `String.prototype.trim`: white space dropped at both ends. */
  function Trim(s: string): (r: string)
  {
    TrimEnd(TrimStart(s))
  }

  /** TrimStart leaves a suffix that starts with a non-blank character, and drops only white space. */
  lemma {:induction false} TrimStartSpec(s: string)
    ensures var r := TrimStart(s);
            && |r| <= |s| && r == s[|s| - |r|..]
            && (forall k :: 0 <= k < |s| - |r| ==> IsWhitespace(s[k]))
            && (r == [] || !IsWhitespace(r[0]))
    decreases |s|
  {
    if s != [] && IsWhitespace(s[0]) {
      TrimStartSpec(s[1..]);
    }
  }

  /** TrimEnd leaves a prefix that ends with a non-blank character, and drops only white space. */
  lemma {:induction false} TrimEndSpec(s: string)
    ensures var r := TrimEnd(s);
            && |r| <= |s| && r == s[..|r|]
            && (forall k :: |r| <= k < |s| ==> IsWhitespace(s[k]))
            && (r == [] || !IsWhitespace(r[|r| - 1]))
    decreases |s|
  {
    if s != [] && IsWhitespace(s[|s| - 1]) {
      TrimEndSpec(s[..|s| - 1]);
    }
  }

  /** Trim keeps a contiguous slice of the line, drops only white space on either side of it, and
      the slice, when not empty, neither starts nor ends with white space. */
  lemma TrimSpec(s: string) returns (start: nat)
    ensures start + |Trim(s)| <= |s| && Trim(s) == s[start..start + |Trim(s)|]
    ensures forall k :: 0 <= k < start ==> IsWhitespace(s[k])
    ensures forall k :: start + |Trim(s)| <= k < |s| ==> IsWhitespace(s[k])
    ensures Trim(s) == [] || (!IsWhitespace(Trim(s)[0]) && !IsWhitespace(Trim(s)[|Trim(s)| - 1]))
  {
    var t := TrimStart(s);
    TrimStartSpec(s);
    TrimEndSpec(t);
    start := |s| - |t|;
    var r := Trim(s);
    if r != [] {
      assert r[0] == t[0];
    }
  }

  /** A line trims to nothing exactly when every character of it is white space. */
  lemma TrimEmptyIffBlank(s: string)
    ensures Trim(s) == [] <==> forall k :: 0 <= k < |s| ==> IsWhitespace(s[k])
  {
    var t := TrimStart(s);
    TrimStartSpec(s);
    TrimEndSpec(t);
    if Trim(s) == [] {
      assert |t| == 0;
    } else {
      var r := Trim(s);
      assert r == t[..|r|];
      assert s[|s| - |t|] == t[0];
    }
  }

  /** A line without leading or trailing white space is left as it is. */
  lemma TrimKeepsTrimmed(s: string)
    requires s != [] && !IsWhitespace(s[0]) && !IsWhitespace(s[|s| - 1])
    ensures Trim(s) == s
  {
    assert TrimStart(s) == s;
  }

  /** The i-th field of a destructuring, `undefined` past the end. */
  function Field(parts: seq<string>, i: nat): (f: Option<string>)
  {
    if i < |parts| then Some(parts[i]) else None
  }

  /** Destructures the comma-separated fields of a line into identifier, attribute and value. */
  function ParseTriple(line: string): (r: Triple)
    ensures ',' !in r.id
    ensures r.attr.None? ==> r.id == line
    ensures r.attr.Some? ==> r.id + [','] <= line && ',' !in r.attr.value
    ensures r.value.Some? ==> r.attr.Some? && ',' !in r.value.value
    ensures r.attr.Some? ==> r.id + [','] + r.attr.value <= line
    ensures r.attr.Some? && r.value.None? ==> line == r.id + [','] + r.attr.value
    ensures r.value.Some? ==>
              var p := r.id + [','] + r.attr.value + [','] + r.value.value;
              p <= line && (|p| == |line| || line[|p|] == ',')
  {
    var parts := Split(line, ',');
    JoinSplit(line, ',');
    LeadingFields(parts, ',');
    Triple(parts[0], Field(parts, 1), Field(parts, 2))
  }

  /** How the first three parts sit at the front of their join. */
  lemma LeadingFields(parts: seq<string>, sep: char)
    requires |parts| >= 1
    ensures |parts| == 1 ==> Join(parts, sep) == parts[0]
    ensures |parts| == 2 ==> Join(parts, sep) == parts[0] + [sep] + parts[1]
    ensures |parts| >= 3 ==>
              var p := parts[0] + [sep] + parts[1] + [sep] + parts[2];
              p <= Join(parts, sep) && (|p| == |Join(parts, sep)| || Join(parts, sep)[|p|] == sep)
  {
    if |parts| == 2 {
      assert Join(parts[1..], sep) == parts[1];
    } else if |parts| >= 3 {
      var tail := if |parts| == 3 then [] else [sep] + Join(parts[3..], sep);
      JoinOfThree(parts, sep, tail);
      PrefixOfConcat(parts[0] + [sep] + parts[1] + [sep] + parts[2], tail);
    }
  }

  lemma JoinOfThree(parts: seq<string>, sep: char, tail: string)
    requires |parts| >= 3
    requires tail == if |parts| == 3 then [] else [sep] + Join(parts[3..], sep)
    ensures Join(parts, sep) == parts[0] + [sep] + parts[1] + [sep] + parts[2] + tail
  {
    var j2 := Join(parts[2..], sep);
    assert j2 == parts[2] + tail by {
      if |parts| > 3 {
        assert parts[2..][1..] == parts[3..];
      }
    }
    var j1 := Join(parts[1..], sep);
    assert j1 == parts[1] + [sep] + j2 by {
      assert parts[1..][1..] == parts[2..];
    }
    var x, y := parts[0] + [sep], parts[1] + [sep];
    assert Join(parts, sep) == x + (y + (parts[2] + tail));
    Assoc(y, parts[2], tail);
    Assoc(x, y + parts[2], tail);
    Assoc(x, y, parts[2]);
    Assoc(x, parts[1], [sep]);
  }

  lemma Assoc(x: string, y: string, z: string)
    ensures x + (y + z) == (x + y) + z
  {
  }

  lemma PrefixOfConcat(p: string, tail: string)
    ensures p <= p + tail
    ensures tail == [] || (p + tail)[|p|] == tail[0]
  {
  }

  /** The fact added for one line of a reply: none when the line is blank once trimmed. */
  function LineFacts(line: string): (ts: seq<Triple>)
    ensures |ts| <= 1
  {
    var s := Trim(line);
    if |s| == 0 then [] else [ParseTriple(s)]
  }

  /** The facts added for `lines`, in order. */
  function LineTriples(lines: seq<string>): (ts: seq<Triple>)
    decreases |lines|
  {
    if lines == [] then [] else LineFacts(lines[0]) + LineTriples(lines[1..])
  }

  /** The facts added for a reply; an absent or empty reply adds none. */
  function ReplyTriples(content: Option<string>): (ts: seq<Triple>)
  {
    match content
    case None => []
    case Some(c) => if |c| == 0 then [] else LineTriples(Split(c, '\n'))
  }

  /** Lines are handled independently and in order. */
  lemma {:induction false} LineTriplesAppend(a: seq<string>, b: seq<string>)
    ensures LineTriples(a + b) == LineTriples(a) + LineTriples(b)
    decreases |a|
  {
    if a != [] {
      var head := LineFacts(a[0]);
      assert (a + b)[0] == a[0] && (a + b)[1..] == a[1..] + b;
      assert LineTriples(a + b) == head + LineTriples(a[1..] + b);
      LineTriplesAppend(a[1..], b);
      assert LineTriples(a) == head + LineTriples(a[1..]);
    } else {
      assert a + b == b;
    }
  }

  /** Inserting a blank line anywhere changes nothing. */
  lemma BlankLineAddsNothing(a: seq<string>, blank: string, b: seq<string>)
    requires forall k :: 0 <= k < |blank| ==> IsWhitespace(blank[k])
    ensures LineTriples(a + [blank] + b) == LineTriples(a + b)
  {
    var ta, tb := LineTriples(a), LineTriples(b);
    assert LineTriples([blank]) == [] by {
      TrimEmptyIffBlank(blank);
      assert [blank][1..] == [];
    }
    assert LineTriples(a + [blank]) == ta by {
      LineTriplesAppend(a, [blank]);
      assert ta + [] == ta;
    }
    assert LineTriples(a + [blank] + b) == ta + tb by {
      LineTriplesAppend(a + [blank], b);
    }
    assert LineTriples(a + b) == ta + tb by {
      LineTriplesAppend(a, b);
    }
  }

  /** The loop of the effect routine: each line of the reply, trimmed, becomes at most one `add`. */
  method AddReplyTriples(content: Option<string>) returns (added: seq<Triple>)
    ensures added == ReplyTriples(content)
  {
    added := [];
    if content.Some? && |content.value| > 0 {
      var triplesEntries := Split(content.value, '\n');
      for i := 0 to |triplesEntries|
        invariant added == LineTriples(triplesEntries[..i])
      {
        LineTriplesAppend(triplesEntries[..i], [triplesEntries[i]]);
        assert triplesEntries[..i + 1] == triplesEntries[..i] + [triplesEntries[i]];
        var s := Trim(triplesEntries[i]);
        if |s| == 0 {
          continue;
        }
        var parts := Split(s, ',');
        added := added + [Triple(parts[0], Field(parts, 1), Field(parts, 2))];
      }
      assert triplesEntries[..|triplesEntries|] == triplesEntries;
    }
  }

  /** A triple whose fields hold no comma or newline and whose line has no white space at either end. */
  ghost predicate Printable(t: (string, string, string))
  {
    && ',' !in t.0 && ',' !in t.1 && ',' !in t.2
    && '\n' !in t.0 && '\n' !in t.1 && '\n' !in t.2
    && (t.0 == [] || !IsWhitespace(t.0[0]))
    && (t.2 == [] || !IsWhitespace(t.2[|t.2| - 1]))
  }

  function FormatLine(t: (string, string, string)): (line: string)
  {
    t.0 + [','] + t.1 + [','] + t.2
  }

  /** One `id,attr,val` line per triple. */
  function FormatLines(ts: seq<(string, string, string)>): (lines: seq<string>)
    ensures |lines| == |ts| && forall i :: 0 <= i < |ts| ==> lines[i] == FormatLine(ts[i])
  {
    if ts == [] then [] else [FormatLine(ts[0])] + FormatLines(ts[1..])
  }

  /** The facts the triples denote, every field present. */
  function AsTriples(ts: seq<(string, string, string)>): (facts: seq<Triple>)
    ensures |facts| == |ts|
    ensures forall i :: 0 <= i < |ts| ==> facts[i] == Triple(ts[i].0, Some(ts[i].1), Some(ts[i].2))
  {
    if ts == [] then [] else [Triple(ts[0].0, Some(ts[0].1), Some(ts[0].2))] + AsTriples(ts[1..])
  }

  /** A reply in the requested format: the lines joined by newlines. */
  function FormatReply(ts: seq<(string, string, string)>): (reply: string)
    requires |ts| >= 1
  {
    Join(FormatLines(ts), '\n')
  }

  lemma ParseFormattedLine(t: (string, string, string))
    requires Printable(t)
    ensures Trim(FormatLine(t)) == FormatLine(t)
    ensures ParseTriple(FormatLine(t)) == Triple(t.0, Some(t.1), Some(t.2))
  {
    var line := FormatLine(t);
    assert line == Join([t.0, t.1, t.2], ',') by {
      assert Join([t.2], ',') == t.2;
      assert [t.0, t.1, t.2][1..] == [t.1, t.2];
      assert [t.1, t.2][1..] == [t.2];
    }
    SplitJoin([t.0, t.1, t.2], ',');
    if t.0 == [] {
      assert line[0] == ',';
    } else {
      assert line[0] == t.0[0];
    }
    if t.2 == [] {
      assert line[|line| - 1] == ',';
    } else {
      assert line[|line| - 1] == t.2[|t.2| - 1];
    }
    TrimKeepsTrimmed(line);
  }

  lemma {:induction false} ParseFormattedLines(ts: seq<(string, string, string)>)
    requires forall i :: 0 <= i < |ts| ==> Printable(ts[i])
    ensures LineTriples(FormatLines(ts)) == AsTriples(ts)
    decreases |ts|
  {
    if ts != [] {
      var t := ts[0];
      ParseFormattedLine(t);
      assert |FormatLine(t)| > 0 by {
        assert FormatLine(t)[|t.0|] == ',';
      }
      var lines := FormatLines(ts);
      assert lines[0] == FormatLine(t) && lines[1..] == FormatLines(ts[1..]);
      ParseFormattedLines(ts[1..]);
    }
  }


  /** Round trip: a reply formatted as requested yields exactly its triples, in order. */
  lemma ReplyRoundTrip(ts: seq<(string, string, string)>)
    requires |ts| >= 1
    requires forall i :: 0 <= i < |ts| ==> Printable(ts[i])
    ensures ReplyTriples(Some(FormatReply(ts))) == AsTriples(ts)
  {
    var lines := FormatLines(ts);
    var reply := FormatReply(ts);
    assert Split(reply, '\n') == lines by {
      forall i | 0 <= i < |lines|
        ensures '\n' !in lines[i]
      {
        FormattedLineShape(ts[i]);
      }
      SplitJoin(lines, '\n');
    }
    assert |reply| > 0 by {
      FormattedLineShape(ts[0]);
      if |lines| > 1 {
        assert reply == lines[0] + ['\n'] + Join(lines[1..], '\n');
      }
    }
    ParseFormattedLines(ts);
  }

  /** A formatted line is never empty and, for a printable triple, holds no newline. */
  lemma FormattedLineShape(t: (string, string, string))
    requires Printable(t)
    ensures '\n' !in FormatLine(t) && |FormatLine(t)| > 0
  {
    var line := FormatLine(t);
    forall k | 0 <= k < |line|
      ensures line[k] != '\n'
    {
      if k < |t.0| {
        assert line[k] == t.0[k];
      } else if k == |t.0| || k == |t.0| + 1 + |t.1| {
      } else if k < |t.0| + 1 + |t.1| {
        assert line[k] == t.1[k - |t.0| - 1];
      } else {
        assert line[k] == t.2[k - |t.0| - |t.1| - 2];
      }
    }
  }


}
