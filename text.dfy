/**
  Splitting a glyph block into lines on "\n" (Rust's `str::split("\n")`,
  which keeps empty pieces) and joining lines back with "\n".
*/
module Text {

  /** The pieces of `s` between newlines; there is always at least one. */
  function Split(s: string): (r: seq<string>)
    ensures |r| >= 1
  {
    if s == [] then [""]
    else
      var rest := Split(s[1..]);
      if s[0] == '\n' then [""] + rest
      else [[s[0]] + rest[0]] + rest[1..]
  }

  /** The pieces with "\n" between consecutive ones. */
  function Join(pieces: seq<string>): string
  {
    if pieces == [] then ""
    else if |pieces| == 1 then pieces[0]
    else pieces[0] + "\n" + Join(pieces[1..])
  }

  /** Number of newlines in `s`. */
  function Newlines(s: string): nat
  {
    if s == [] then 0 else (if s[0] == '\n' then 1 else 0) + Newlines(s[1..])
  }

  /** No piece contains a newline. */
  predicate NoNewlines(pieces: seq<string>)
  {
    forall i :: 0 <= i < |pieces| ==> '\n' !in pieces[i]
  }

  /** Joining the pieces with "\n" gives the block back. */
  lemma {:induction false} JoinSplit(s: string)
    ensures Join(Split(s)) == s
  {
    if s != [] {
      JoinSplit(s[1..]);
      var rest := Split(s[1..]);
      if s[0] == '\n' {
        assert s == "\n" + s[1..];
      } else if |rest| == 1 {
        assert s == [s[0]] + rest[0];
      } else {
        assert ([[s[0]] + rest[0]] + rest[1..])[1..] == rest[1..];
        assert s == [s[0]] + (rest[0] + "\n" + Join(rest[1..]));
      }
    }
  }

  /** There is one more piece than there are newlines, and no piece contains one. */
  lemma {:induction false} SplitShape(s: string)
    ensures |Split(s)| == Newlines(s) + 1
    ensures NoNewlines(Split(s))
  {
    if s != [] {
      SplitShape(s[1..]);
      var rest := Split(s[1..]);
      var r := Split(s);
      if s[0] == '\n' {
        assert forall i :: 1 <= i < |r| ==> r[i] == rest[i - 1];
      } else {
        assert forall i :: 1 <= i < |r| ==> r[i] == rest[i];
        assert '\n' !in [s[0]] + rest[0];
      }
    }
  }

  /** Joining one more piece. */
  lemma {:induction false} JoinSnoc(pieces: seq<string>, x: string)
    requires pieces != []
    ensures Join(pieces + [x]) == Join(pieces) + "\n" + x
    decreases |pieces|
  {
    if |pieces| > 1 {
      assert (pieces + [x])[1..] == pieces[1..] + [x];
      JoinSnoc(pieces[1..], x);
    }
  }

  /** Splitting a join of newline-free pieces gives the pieces back. */
  lemma {:induction false} SplitJoin(pieces: seq<string>)
    requires pieces != [] && NoNewlines(pieces)
    ensures Split(Join(pieces)) == pieces
    decreases |pieces|, |pieces[0]|
  {
    var p := pieces[0];
    if |pieces| == 1 {
      SplitPiece(p);
    } else if p == "" {
      var s := Join(pieces);
      assert s == "\n" + Join(pieces[1..]);
      assert s[1..] == Join(pieces[1..]);
      SplitJoin(pieces[1..]);
    } else {
      var s := Join(pieces);
      var tail := [p[1..]] + pieces[1..];
      assert NoNewlines(tail) by {
        assert '\n' !in p;
        forall i | 0 <= i < |tail|
          ensures '\n' !in tail[i]
        {
          if i > 0 {
            assert tail[i] == pieces[i];
          }
        }
      }
      assert tail[1..] == pieces[1..];
      assert s == [p[0]] + Join(tail);
      assert s[1..] == Join(tail);
      SplitJoin(tail);
      assert p[0] != '\n';
      assert [p[0]] + p[1..] == p;
    }
  }

  /** A newline-free string is a single piece. */
  lemma {:induction false} SplitPiece(p: string)
    requires '\n' !in p
    ensures Split(p) == [p]
  {
    if p != [] {
      SplitPiece(p[1..]);
      assert [p[0]] + p[1..] == p;
    }
  }
}
