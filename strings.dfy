/** The two Python string operations the serialiser uses, `sep.join(parts)`
    and `"".join(parts)`, and `str.split("\n")`, used to state the line
    layout of what the serialiser emits. */
module Strings {

  /** `sep.join(parts)`: the parts with `sep` between neighbours. */
  function Join(parts: seq<string>, sep: string): string
  {
    if parts == [] then ""
    else if |parts| == 1 then parts[0]
    else parts[0] + sep + Join(parts[1..], sep)
  }

  /** `"".join(parts)`. */
  function Concat(parts: seq<string>): string
  {
    if parts == [] then "" else parts[0] + Concat(parts[1..])
  }

  /** `s.split("\n")`: the pieces between newlines; there is always at least
      one piece. */
  function Lines(s: string): (r: seq<string>)
    ensures |r| >= 1
  {
    if s == [] then [""]
    else
      var rest := Lines(s[1..]);
      if s[0] == '\n' then [""] + rest else [[s[0]] + rest[0]] + rest[1..]
  }

  predicate SingleLine(s: string)
  {
    '\n' !in s
  }

  /** Joining with the separator in front of a final part is joining the
      longer list. */
  lemma {:induction false} JoinSnoc(parts: seq<string>, last: string, sep: string)
    requires parts != []
    ensures Join(parts + [last], sep) == Join(parts, sep) + sep + last
  {
    var whole := parts + [last];
    assert whole[0] == parts[0];
    if |parts| == 1 {
      assert whole[1..] == [last];
    } else {
      assert whole[1..] == parts[1..] + [last];
      JoinSnoc(parts[1..], last, sep);
    }
  }

  /** Joining a head, a non-empty middle and a tail: how `"\n".join(y)`
      places the options between their enclosing tags. */
  lemma Enclosed(head: string, middle: seq<string>, tail: string, sep: string)
    requires middle != []
    ensures Join([head] + middle + [tail], sep) == head + sep + Join(middle, sep) + sep + tail
  {
    var inner := [head] + middle;
    JoinSnoc(inner, tail, sep);
    assert inner[1..] == middle;
  }

  /** Splitting a single line that is followed by a newline yields that line
      first. */
  lemma {:induction false} LinesAfter(a: string, b: string)
    requires SingleLine(a)
    ensures Lines(a + "\n" + b) == [a] + Lines(b)
  {
    var s := a + "\n" + b;
    if a == [] {
      assert s[0] == '\n' && s[1..] == b;
    } else {
      assert s[0] == a[0];
      assert s[1..] == a[1..] + "\n" + b;
      LinesAfter(a[1..], b);
      assert [a[0]] + a[1..] == a;
    }
  }

  /** Single-line parts joined by newlines split back into exactly those parts. */
  lemma {:induction false} LinesOfJoin(parts: seq<string>, rest: string)
    requires parts != []
    requires forall k :: 0 <= k < |parts| ==> SingleLine(parts[k])
    ensures Lines(Join(parts, "\n") + "\n" + rest) == parts + Lines(rest)
  {
    if |parts| == 1 {
      LinesAfter(parts[0], rest);
    } else {
      var after := Join(parts[1..], "\n") + "\n" + rest;
      LinesOfJoin(parts[1..], rest);
      JoinStep(parts, rest);
      LinesAfter(parts[0], after);
      ConsAppend(parts, Lines(rest));
    }
  }

  /** Joining two or more parts puts the first in front of the rest. */
  lemma JoinStep(parts: seq<string>, rest: string)
    requires |parts| >= 2
    ensures Join(parts, "\n") + "\n" + rest == parts[0] + "\n" + (Join(parts[1..], "\n") + "\n" + rest)
  {
    Regroup(parts[0], "\n", Join(parts[1..], "\n"), rest);
  }

  lemma ConsAppend<T>(xs: seq<T>, ys: seq<T>)
    requires xs != []
    ensures [xs[0]] + (xs[1..] + ys) == xs + ys
  {
    assert [xs[0]] + xs[1..] == xs;
  }

  lemma Regroup(a: string, sep: string, b: string, c: string)
    ensures a + sep + b + sep + c == a + sep + (b + sep + c)
  {
  }

  /** The index of the first `ch` in `s`, or `|s|` when there is none. */
  function FirstIndex(s: string, ch: char): (i: nat)
    ensures i <= |s| && ch !in s[..i]
    ensures i < |s| ==> s[i] == ch
  {
    if s == [] then 0
    else if s[0] == ch then 0
    else
      var i := 1 + FirstIndex(s[1..], ch);
      assert s[..i] == [s[0]] + s[1..][..i - 1];
      i
  }

  /** The first `ch` after a stretch without one is found right there. */
  lemma FirstIndexAfter(a: string, ch: char, b: string)
    requires ch !in a
    ensures FirstIndex(a + [ch] + b, ch) == |a|
  {
    var s := a + [ch] + b;
    assert s[|a|] == ch;
    assert s[..|a|] == a;
  }

  /** `"".join` of a head, an optional middle and a tail. */
  lemma ConcatParts(head: string, middle: string, tail: string, parts: seq<string>)
    requires parts == [head, middle, tail] || (middle == "" && parts == [head, tail])
    ensures Concat(parts) == head + middle + tail
  {
    var rest := parts[1..];
    assert Concat(parts) == head + Concat(rest);
    if |parts| == 3 {
      assert rest == [middle, tail] && rest[1..] == [tail] && rest[1..][1..] == [];
      assert Concat(rest[1..]) == tail + "";
      assert tail + "" == tail;
    } else {
      assert rest == [tail] && rest[1..] == [];
    }
  }

  /** `"\n".join` of a non-empty middle between a first part that starts
      with a newline and a last part that ends with one. */
  lemma EnclosedBlock(open: string, middle: seq<string>, close: string)
    requires middle != []
    ensures Join(["\n" + open] + middle + [close + "\n"], "\n")
         == "\n" + open + "\n" + Join(middle, "\n") + "\n" + close + "\n"
  {
    Enclosed("\n" + open, middle, close + "\n", "\n");
    var j := Join(middle, "\n");
    assert ("\n" + open) + "\n" + j + "\n" + (close + "\n")
        == "\n" + open + "\n" + j + "\n" + close + "\n";
  }

  /** The text of a head line, an enclosing pair of lines around single-line
      parts and a last line regrouped so that each line is followed by the rest. */
  lemma LayoutRegroup(head: string, open: string, j: string, close: string, last: string)
    ensures head + ("\n" + open + "\n" + j + "\n" + close + "\n") + (last + "\n")
         == head + "\n" + (open + "\n" + (j + "\n" + (close + "\n" + (last + "\n" + ""))))
  {
  }

  /** Single-line parts followed by two more lines, each ending in a newline. */
  lemma TailLines(parts: seq<string>, close: string, last: string)
    requires SingleLine(close) && SingleLine(last)
    requires parts != [] && forall k :: 0 <= k < |parts| ==> SingleLine(parts[k])
    ensures Lines(Join(parts, "\n") + "\n" + (close + "\n" + (last + "\n" + "")))
         == parts + [close, last, ""]
  {
    var r3 := last + "\n" + "";
    LinesAfter(last, "");
    LinesAfter(close, r3);
    LinesOfJoin(parts, close + "\n" + r3);
  }

  /** The lines of a head line, an enclosing pair of lines around single-line
      parts, and a last line, each followed by a newline. */
  lemma LayoutLines(head: string, open: string, parts: seq<string>, close: string, last: string)
    requires SingleLine(head) && SingleLine(open) && SingleLine(close) && SingleLine(last)
    requires parts != [] && forall k :: 0 <= k < |parts| ==> SingleLine(parts[k])
    ensures Lines(head + ("\n" + open + "\n" + Join(parts, "\n") + "\n" + close + "\n") + (last + "\n"))
         == [head, open] + parts + [close, last, ""]
  {
    var j := Join(parts, "\n");
    var r1 := j + "\n" + (close + "\n" + (last + "\n" + ""));
    LayoutRegroup(head, open, j, close, last);
    TailLines(parts, close, last);
    LinesAfter(open, r1);
    LinesAfter(head, open + "\n" + r1);
  }
}
