/** Cutting at a separator and putting back together. */
module Splitting {

  /** The pieces between separators; one more piece than there are separators. */
  function Split<T(==)>(s: seq<T>, sep: T): (pieces: seq<seq<T>>)
    ensures |pieces| >= 1
  {
    if s == [] then [[]]
    else
      var rest := Split(s[1..], sep);
      if s[0] == sep then [[]] + rest else [[s[0]] + rest[0]] + rest[1..]
  }

  /** The pieces with one separator between neighbours. */
  function Join<T>(pieces: seq<seq<T>>, sep: T): seq<T> {
    if |pieces| == 0 then []
    else if |pieces| == 1 then pieces[0]
    else pieces[0] + [sep] + Join(pieces[1..], sep)
  }

  function Last<T>(s: seq<T>): T
    requires |s| >= 1
  {
    s[|s| - 1]
  }

  function Front<T>(s: seq<T>): seq<T>
    requires |s| >= 1
  {
    s[..|s| - 1]
  }

  /** No piece contains the separator. */
  predicate AllFree<T(==)>(pieces: seq<seq<T>>, sep: T) {
    forall i :: 0 <= i < |pieces| ==> sep !in pieces[i]
  }

  /** The lines of a text: its pieces, without the empty piece after a final newline.
      This is both what a stream reader delivers and Python's `splitlines`. */
  function LinesOf(text: string): (lines: seq<string>) {
    var pieces := Split(text, '\n');
    if Last(pieces) == [] then Front(pieces) else pieces
  }

  lemma Around<T>(s: seq<T>, i: nat)
    requires i < |s|
    ensures s == s[..i] + [s[i]] + s[i + 1..]
  {
  }

  lemma Assoc<T>(a: seq<T>, b: seq<T>, c: seq<T>)
    ensures (a + b) + c == a + (b + c)
    ensures [] + a == a && a + [] == a
  {
  }

  function Flatten<T>(ss: seq<seq<T>>): seq<T> {
    if ss == [] then [] else ss[0] + Flatten(ss[1..])
  }

  lemma {:induction false} FlattenAppend<T>(a: seq<seq<T>>, b: seq<seq<T>>)
    ensures Flatten(a + b) == Flatten(a) + Flatten(b)
  {
    if a == [] {
      assert a + b == b;
    } else {
      assert (a + b)[1..] == a[1..] + b;
      FlattenAppend(a[1..], b);
    }
  }

  /** Splitting loses nothing, and every piece is free of the separator. */
  lemma {:induction false} JoinOfSplit<T>(s: seq<T>, sep: T)
    ensures Join(Split(s, sep), sep) == s
    ensures AllFree(Split(s, sep), sep)
  {
    if s != [] {
      JoinOfSplit(s[1..], sep);
      var rest := Split(s[1..], sep);
      var pieces := Split(s, sep);
      if s[0] == sep {
        assert pieces[1..] == rest;
      } else {
        assert pieces[1..] == rest[1..];
        assert pieces[0] == [s[0]] + rest[0];
      }
    }
  }

  /** Prepending text without separators only lengthens the first piece. */
  lemma {:induction false} SplitPrepend<T>(a: seq<T>, b: seq<T>, sep: T)
    requires sep !in a
    ensures Split(a + b, sep) == [a + Split(b, sep)[0]] + Split(b, sep)[1..]
  {
    if a == [] {
      assert a + b == b;
      assert a + Split(b, sep)[0] == Split(b, sep)[0];
    } else {
      assert (a + b)[1..] == a[1..] + b;
      SplitPrepend(a[1..], b, sep);
      assert [a[0]] + (a[1..] + Split(b, sep)[0]) == a + Split(b, sep)[0];
    }
  }

  /** The pieces are the only separator-free list that joins back to the text. */
  lemma {:induction false} SplitOfJoin<T>(pieces: seq<seq<T>>, sep: T)
    requires |pieces| >= 1
    requires AllFree(pieces, sep)
    ensures Split(Join(pieces, sep), sep) == pieces
  {
    if |pieces| == 1 {
      SplitPrepend(pieces[0], [], sep);
      assert pieces[0] + [] == pieces[0];
    } else {
      var tail := [sep] + Join(pieces[1..], sep);
      assert Join(pieces, sep) == pieces[0] + tail;
      SplitOfJoin(pieces[1..], sep);
      assert tail[1..] == Join(pieces[1..], sep);
      assert Split(tail, sep) == [[]] + pieces[1..];
      SplitPrepend(pieces[0], tail, sep);
      assert pieces[0] + [] == pieces[0];
    }
  }

  /** The pieces of `a`, the last one still open, followed by the pieces of what follows. */
  function Extend<T(==)>(pieces: seq<seq<T>>, b: seq<T>, sep: T): seq<seq<T>>
    requires |pieces| >= 1
  {
    Front(pieces) + Split(Last(pieces) + b, sep)
  }

  lemma ExtendCons<T>(c: T, rest: seq<seq<T>>, b: seq<T>, sep: T)
    requires |rest| >= 1
    ensures Extend([[]] + rest, b, sep) == [[]] + Extend(rest, b, sep)
    ensures c != sep ==>
              Extend([[c] + rest[0]] + rest[1..], b, sep) == [[c] + Extend(rest, b, sep)[0]] + Extend(rest, b, sep)[1..]
  {
    assert Front([[]] + rest) == [[]] + Front(rest);
    var grown := [[c] + rest[0]] + rest[1..];
    if |rest| == 1 {
      assert ([c] + rest[0]) + b == [c] + (rest[0] + b);
    } else {
      assert Last(grown) == Last(rest);
      assert Front(grown) == [[c] + rest[0]] + Front(rest)[1..];
    }
  }

  /** Text that arrives later only touches the last piece: splitting `a + b` is
      splitting `a`, then splitting its unfinished last piece followed by `b`. */
  lemma {:induction false} SplitAppend<T>(a: seq<T>, b: seq<T>, sep: T)
    ensures Split(a + b, sep) == Front(Split(a, sep)) + Split(Last(Split(a, sep)) + b, sep)
  {
    if a == [] {
      assert a + b == b;
      assert Last(Split(a, sep)) + b == b;
    } else {
      assert a + b == [a[0]] + (a[1..] + b);
      SplitAppend(a[1..], b, sep);
      ExtendCons(a[0], Split(a[1..], sep), b, sep);
    }
  }

  /** A text made of newline-terminated lines has exactly those lines. */
  lemma LinesOfTerminated(lines: seq<string>)
    requires AllFree(lines, '\n')
    requires lines != []
    ensures LinesOf(Join(lines, '\n') + "\n") == lines
  {
    var all := lines + [[]];
    JoinSnocEmpty(lines, '\n');
    SplitOfJoin(all, '\n');
    assert Front(all) == lines;
  }

  lemma {:induction false} JoinSnocEmpty<T>(pieces: seq<seq<T>>, sep: T)
    requires pieces != []
    ensures Join(pieces + [[]], sep) == Join(pieces, sep) + [sep]
  {
    if |pieces| == 1 {
      assert pieces + [[]] == [pieces[0], []];
      assert [pieces[0], []][1..] == [[]];
    } else {
      assert (pieces + [[]])[1..] == pieces[1..] + [[]];
      JoinSnocEmpty(pieces[1..], sep);
    }
  }

  /** Lines never contain a newline. */
  lemma LinesAreFree(text: string)
    ensures AllFree(LinesOf(text), '\n')
  {
    JoinOfSplit(text, '\n');
  }
}
