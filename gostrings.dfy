/** Go strings as byte sequences, and the pieces of Go's `strings` package the
    analyzer uses: `Index` (for a one-byte separator), `Split`, `Join`,
    `HasPrefix` and `HasSuffix`.

    A Go `string` is an immutable sequence of bytes: `len(s)` counts bytes and
    `s[i]` is a byte, so the model works on `seq<byte>` throughout. */
module GoStrings {

  newtype byte = x: int | 0 <= x < 0x100

  /** The bytes of an ASCII string literal (such as a default name server
      address): in UTF-8 each ASCII character is the one byte of its code. */
  function FromLiteral(s: string): (b: seq<byte>)
    requires forall i | 0 <= i < |s| :: s[i] as int < 0x80
    ensures |b| == |s|
    ensures forall i | 0 <= i < |s| :: b[i] as int == s[i] as int
  {
    seq(|s|, i requires 0 <= i < |s| => s[i] as int as byte)
  }

  /** `strings.HasPrefix(s, p)`. */
  predicate HasPrefix(s: seq<byte>, p: seq<byte>) {
    |p| <= |s| && s[..|p|] == p
  }

  /** `strings.HasSuffix(s, p)`. */
  predicate HasSuffix(s: seq<byte>, p: seq<byte>) {
    |p| <= |s| && s[|s| - |p|..] == p
  }

  lemma AffixOfOneByte(s: seq<byte>, c: byte)
    ensures HasPrefix(s, [c]) <==> |s| > 0 && s[0] == c
    ensures HasSuffix(s, [c]) <==> |s| > 0 && s[|s| - 1] == c
  {
    if |s| > 0 {
      assert s[..1] == [s[0]];
      assert s[|s| - 1..] == [s[|s| - 1]];
    }
  }

  /** The position of the first `sep` in `s`, or `|s|` if there is none.
      `strings.Index(s, string(sep))` is this, or -1 when this is `|s|`. */
  function FirstSeparator(s: seq<byte>, sep: byte): (e: nat)
    ensures e <= |s|
    ensures e < |s| ==> s[e] == sep
  {
    if |s| == 0 || s[0] == sep then 0 else 1 + FirstSeparator(s[1..], sep)
  }

  /** No separator comes before the one `FirstSeparator` finds. */
  lemma {:induction false} FirstSeparatorIsFirst(s: seq<byte>, sep: byte)
    ensures forall m | 0 <= m < FirstSeparator(s, sep) :: s[m] != sep
  {
    if |s| > 0 && s[0] != sep {
      FirstSeparatorIsFirst(s[1..], sep);
    }
  }

  /** `strings.Split(s, string(sep))`, cut the way Go's `genSplit` cuts: the
      bytes before the first separator are a piece, and splitting goes on
      with what follows that separator; with no separator left, the rest is
      the last piece. The result always has at least one piece
      (`Split("", ".")` is `[""]`). */
  function Split(s: seq<byte>, sep: byte): (parts: seq<seq<byte>>)
    ensures |parts| >= 1
    decreases |s|
  {
    var e := FirstSeparator(s, sep);
    if e == |s| then [s] else [s[..e]] + Split(s[e + 1..], sep)
  }

  /** `strings.Join(parts, string(sep))`; `Join([], sep)` is empty. */
  function Join(parts: seq<seq<byte>>, sep: byte): (s: seq<byte>)
    ensures |parts| == 1 ==> s == parts[0]
  {
    if |parts| == 0 then []
    else if |parts| == 1 then parts[0]
    else parts[0] + [sep] + Join(parts[1..], sep)
  }

  /** One step of a split that finds a separator at `e`. */
  lemma SplitStep(s: seq<byte>, sep: byte, e: nat)
    requires e == FirstSeparator(s, sep) && e < |s|
    ensures Split(s, sep) == [s[..e]] + Split(s[e + 1..], sep)
    ensures |Split(s, sep)| == 1 + |Split(s[e + 1..], sep)|
  {
  }

  /** Piece `k > 0` of a split is piece `k - 1` of what follows the first separator. */
  lemma LaterPiece(s: seq<byte>, sep: byte, e: nat, k: nat)
    requires e == FirstSeparator(s, sep) && e < |s|
    requires 0 < k < |Split(s, sep)|
    ensures k - 1 < |Split(s[e + 1..], sep)|
    ensures Split(s, sep)[k] == Split(s[e + 1..], sep)[k - 1]
  {
    SplitStep(s, sep, e);
  }

  /** The first piece of a split. */
  lemma FirstPiece(s: seq<byte>, sep: byte)
    ensures Split(s, sep)[0] == s[..FirstSeparator(s, sep)]
  {
    if FirstSeparator(s, sep) == |s| {
      assert s[..|s|] == s;
    }
  }

  /** No piece of a split holds the separator. */
  lemma {:induction false} PiecesHaveNoSeparator(s: seq<byte>, sep: byte)
    ensures var parts := Split(s, sep);
      forall k, m | 0 <= k < |parts| && 0 <= m < |parts[k]| :: parts[k][m] != sep
    decreases |s|
  {
    var parts := Split(s, sep);
    var e := FirstSeparator(s, sep);
    FirstSeparatorIsFirst(s, sep);
    FirstPiece(s, sep);
    if e < |s| {
      PiecesHaveNoSeparator(s[e + 1..], sep);
      forall k | 0 < k < |parts|
        ensures parts[k] == Split(s[e + 1..], sep)[k - 1]
      {
        LaterPiece(s, sep, e, k);
      }
    }
  }

  /** A string splits into more than one piece exactly when it holds a separator. */
  lemma SplitIsSingleIff(s: seq<byte>, sep: byte)
    ensures |Split(s, sep)| == 1 <==> sep !in s
  {
    var e := FirstSeparator(s, sep);
    FirstSeparatorIsFirst(s, sep);
    if e < |s| {
      SplitStep(s, sep, e);
    }
  }

  lemma JoinCons(p: seq<byte>, rest: seq<seq<byte>>, sep: byte)
    requires |rest| >= 1
    ensures Join([p] + rest, sep) == p + [sep] + Join(rest, sep)
  {
    assert ([p] + rest)[1..] == rest;
  }

  lemma SliceAround(s: seq<byte>, e: nat)
    requires e < |s|
    ensures s == s[..e] + [s[e]] + s[e + 1..]
  {
  }

  /** Joining the pieces of a split gives back the original string. */
  lemma {:induction false} JoinSplit(s: seq<byte>, sep: byte)
    ensures Join(Split(s, sep), sep) == s
    decreases |s|
  {
    var e := FirstSeparator(s, sep);
    if e < |s| {
      var rest := s[e + 1..];
      SplitStep(s, sep, e);
      JoinCons(s[..e], Split(rest, sep), sep);
      JoinSplit(rest, sep);
      SliceAround(s, e);
    }
  }

  /** A string with no separator is found to have none. */
  lemma {:induction false} FirstSeparatorOfFree(p: seq<byte>, sep: byte)
    requires forall m | 0 <= m < |p| :: p[m] != sep
    ensures FirstSeparator(p, sep) == |p|
  {
    if |p| > 0 {
      FirstSeparatorOfFree(p[1..], sep);
    }
  }

  /** The first separator of `p + [sep] + tail`, when `p` has none, is the
      one after `p`. */
  lemma {:induction false} FirstSeparatorAfterFree(p: seq<byte>, tail: seq<byte>, sep: byte)
    requires forall m | 0 <= m < |p| :: p[m] != sep
    ensures FirstSeparator(p + [sep] + tail, sep) == |p|
  {
    var s := p + [sep] + tail;
    if |p| > 0 {
      assert s[0] == p[0];
      assert s[1..] == p[1..] + [sep] + tail;
      FirstSeparatorAfterFree(p[1..], tail, sep);
    }
  }

  /** A separator-free first piece splits off on its own. */
  lemma SplitAfterFreePrefix(p: seq<byte>, tail: seq<byte>, sep: byte)
    requires forall m | 0 <= m < |p| :: p[m] != sep
    ensures Split(p + [sep] + tail, sep) == [p] + Split(tail, sep)
  {
    var s := p + [sep] + tail;
    FirstSeparatorAfterFree(p, tail, sep);
    SplitStep(s, sep, |p|);
    assert s[..|p|] == p;
    assert s[|p| + 1..] == tail;
  }

  /** Splitting a join of separator-free pieces gives back the pieces. */
  lemma {:induction false} SplitJoin(parts: seq<seq<byte>>, sep: byte)
    requires |parts| >= 1
    requires forall k, m | 0 <= k < |parts| && 0 <= m < |parts[k]| :: parts[k][m] != sep
    ensures Split(Join(parts, sep), sep) == parts
  {
    var p := parts[0];
    assert forall m | 0 <= m < |p| :: p[m] != sep;
    if |parts| == 1 {
      FirstSeparatorOfFree(p, sep);
    } else {
      var tail := Join(parts[1..], sep);
      SplitAfterFreePrefix(p, tail, sep);
      SplitJoin(parts[1..], sep);
      assert parts == [p] + parts[1..];
    }
  }
}
