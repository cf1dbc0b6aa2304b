/** Splitting text at a separator character and joining the pieces. */
module Texts {
  import opened Seqs

  const NUL: char := '\U{0000}'

  predicate Free(s: string, c: char) { c !in s }

  /** The character put in front of the first piece. */
  function Prepend(ch: char, parts: seq<string>): (r: seq<string>)
    requires parts != []
    ensures |r| == |parts| && r[0] == [ch] + parts[0] && forall i | 1 <= i < |r| :: r[i] == parts[i]
  {
    seq(|parts|, i requires 0 <= i < |parts| => if i == 0 then [ch] + parts[0] else parts[i])
  }

  /** The last piece of one sequence run together with the first piece of the other. */
  function Glue(x: seq<string>, y: seq<string>): (r: seq<string>)
    requires x != [] && y != []
    ensures |r| == |x| + |y| - 1
    ensures forall i | 0 <= i < |r| ::
              r[i] == if i < |x| - 1 then x[i] else if i == |x| - 1 then x[i] + y[0] else y[i - |x| + 1]
  {
    seq(|x| + |y| - 1, i requires 0 <= i < |x| + |y| - 1 =>
      if i < |x| - 1 then x[i] else if i == |x| - 1 then x[i] + y[0] else y[i - |x| + 1])
  }

  function Split(s: string, c: char): (parts: seq<string>)
    ensures |parts| >= 1
  {
    if s == "" then [""]
    else if s[0] == c then [""] + Split(s[1..], c)
    else Prepend(s[0], Split(s[1..], c))
  }

  function Join(parts: seq<string>, separator: string): string {
    if |parts| == 0 then ""
    else if |parts| == 1 then parts[0]
    else Join(parts[..|parts| - 1], separator) + separator + parts[|parts| - 1]
  }

  lemma {:induction false} SplitPartsAreFree(s: string, c: char)
    ensures forall i | 0 <= i < |Split(s, c)| :: Free(Split(s, c)[i], c)
  {
    if s != "" {
      SplitPartsAreFree(s[1..], c);
      var rest := Split(s[1..], c);
      if s[0] == c {
        assert Split(s, c) == [""] + rest;
      } else {
        assert Split(s, c) == Prepend(s[0], rest);
      }
    }
  }

  lemma {:induction false} SplitFree(s: string, c: char)
    requires Free(s, c)
    ensures Split(s, c) == [s]
  {
    if s != "" {
      assert s[0] in s && forall x | x in s[1..] :: x in s;
      SplitFree(s[1..], c);
      assert [s[0]] + s[1..] == s;
      assert Prepend(s[0], [s[1..]]) == [s];
    }
  }

  lemma PrependText(ch: char, a: string, b: string)
    ensures [ch] + a + b == [ch] + (a + b)
  {
  }

  lemma GluePrepend(ch: char, x: seq<string>, y: seq<string>)
    requires x != [] && y != []
    ensures Glue(Prepend(ch, x), y) == Prepend(ch, Glue(x, y))
  {
    if |x| == 1 { PrependText(ch, x[0], y[0]); }
    SameElements(Glue(Prepend(ch, x), y), Prepend(ch, Glue(x, y)));
  }

  lemma GlueEmpty(y: seq<string>)
    requires y != []
    ensures Glue([""], y) == y
  {
    assert "" + y[0] == y[0];
    SameElements(Glue([""], y), y);
  }

  lemma GlueEmptyFirst(x: seq<string>, y: seq<string>)
    requires x != [] && y != []
    ensures Glue([""] + x, y) == [""] + Glue(x, y)
  {
    SameElements(Glue([""] + x, y), [""] + Glue(x, y));
  }

  lemma GlueAtSeparator(x: seq<string>, y: seq<string>)
    requires x != []
    ensures Glue(x, [""] + y) == x + y
  {
    assert x[|x| - 1] + "" == x[|x| - 1];
    SameElements(Glue(x, [""] + y), x + y);
  }

  lemma GlueAppend(front: seq<string>, last: string, y: seq<string>)
    requires y != []
    ensures Glue(front + [last], y) == front + Glue([last], y)
  {
    SameElements(Glue(front + [last], y), front + Glue([last], y));
  }

  /** Gluing two texts glues the last piece of one to the first piece of the other. */
  lemma {:induction false} SplitGlue(a: string, b: string, c: char)
    ensures Split(a + b, c) == Glue(Split(a, c), Split(b, c))
  {
    if a == "" {
      assert a + b == b;
      GlueEmpty(Split(b, c));
    } else {
      SplitGlue(a[1..], b, c);
      assert (a + b)[1..] == a[1..] + b;
      if a[0] == c {
        GlueEmptyFirst(Split(a[1..], c), Split(b, c));
      } else {
        GluePrepend(a[0], Split(a[1..], c), Split(b, c));
      }
    }
  }

  lemma SplitAtSeparator(s: string, tail: string, c: char)
    ensures Split(s + [c] + tail, c) == Split(s, c) + Split(tail, c)
  {
    assert s + [c] + tail == s + ([c] + tail);
    assert ([c] + tail)[1..] == tail;
    SplitGlue(s, [c] + tail, c);
    GlueAtSeparator(Split(s, c), Split(tail, c));
  }

  /** Splitting undoes joining. */
  lemma {:induction false} SplitJoin(parts: seq<string>, c: char)
    requires parts != [] && forall p | p in parts :: Free(p, c)
    ensures Split(Join(parts, [c]), c) == parts
  {
    if |parts| == 1 {
      SplitFree(parts[0], c);
    } else {
      var front := parts[..|parts| - 1];
      SplitJoin(front, c);
      SplitAtSeparator(Join(front, [c]), parts[|parts| - 1], c);
      SplitFree(parts[|parts| - 1], c);
    }
  }

  lemma {:induction false} JoinFree(parts: seq<string>, separator: string, c: char)
    requires Free(separator, c) && forall p | p in parts :: Free(p, c)
    ensures Free(Join(parts, separator), c)
  {
    if |parts| > 1 {
      var front, last := Join(parts[..|parts| - 1], separator), parts[|parts| - 1];
      JoinFree(parts[..|parts| - 1], separator, c);
      assert Free(last, c) && Free(front, c);
      assert Join(parts, separator) == front + separator + last;
    }
  }

  lemma {:induction false} JoinHead(head: string, parts: seq<string>, separator: string)
    requires parts != []
    ensures Join([head] + parts, separator) == head + separator + Join(parts, separator)
  {
    var all := [head] + parts;
    if |parts| == 1 {
      assert all[..1] == [head];
    } else {
      JoinHead(head, parts[..|parts| - 1], separator);
      assert all[..|all| - 1] == [head] + parts[..|parts| - 1];
    }
  }

  lemma JoinPrependHead(ch: char, head: string, parts: seq<string>, separator: string)
    requires parts != []
    ensures Join([[ch] + head] + parts, separator) == [ch] + Join([head] + parts, separator)
  {
    JoinHead(head, parts, separator);
    JoinHead([ch] + head, parts, separator);
    PrependText(ch, head, separator);
    PrependText(ch, head + separator, Join(parts, separator));
  }

  lemma JoinPrepend(ch: char, parts: seq<string>, separator: string)
    requires parts != []
    ensures Join(Prepend(ch, parts), separator) == [ch] + Join(parts, separator)
  {
    if |parts| > 1 {
      SameElements(parts, [parts[0]] + parts[1..]);
      SameElements(Prepend(ch, parts), [[ch] + parts[0]] + parts[1..]);
      JoinPrependHead(ch, parts[0], parts[1..], separator);
    }
  }

  /** Joining undoes splitting. */
  lemma {:induction false} JoinSplit(s: string, c: char)
    ensures Join(Split(s, c), [c]) == s
  {
    if s != "" {
      JoinSplit(s[1..], c);
      if s[0] == c {
        JoinHead("", Split(s[1..], c), [c]);
      } else {
        JoinPrepend(s[0], Split(s[1..], c), [c]);
      }
    }
  }
}
