/**
 * The newline splitting of umd2.py's `iter_lines_serial`: bytes read from
 * the port are appended to a buffer, every complete line (up to a `\n`) is
 * taken off the front of it, and the unterminated tail waits for the next
 * read. The port itself and the decoding of each line to text are not
 * modelled; a read is a parameter `chunk`.
 */
module SerialLines {

  newtype byte = x: int | 0 <= x < 256

  /** `b"\n"`. */
  const NL: byte := 10

  /** Lines each followed by its newline, as they stood in the byte stream. */
  function Terminated(lines: seq<seq<byte>>): seq<byte>
  {
    if lines == [] then [] else lines[0] + [NL] + Terminated(lines[1..])
  }

  lemma {:induction false} TerminatedAppend(a: seq<seq<byte>>, b: seq<seq<byte>>)
    ensures Terminated(a + b) == Terminated(a) + Terminated(b)
  {
    if a == [] {
      assert a + b == b;
    } else {
      assert (a + b)[1..] == a[1..] + b;
      TerminatedAppend(a[1..], b);
    }
  }

  lemma TerminatedSnoc(a: seq<seq<byte>>, l: seq<byte>)
    ensures Terminated(a + [l]) == Terminated(a) + l + [NL]
  {
    TerminatedAppend(a, [l]);
    assert Terminated([l]) == l + [NL] + Terminated([]);
  }

  /** No line holds a newline of its own. */
  predicate LinesClean(lines: seq<seq<byte>>)
  {
    forall l | l in lines :: NL !in l
  }

  /** The position of the first newline in `s`. */
  function FirstNL(s: seq<byte>): (i: nat)
    requires NL in s
    ensures i < |s| && s[i] == NL && NL !in s[..i]
  {
    if s[0] == NL then 0 else 1 + FirstNL(s[1..])
  }

  /** The complete lines of `data` and its unterminated tail, cutting at
      each newline from the left as `bytes.split(b"\n", 1)` does. */
  function Split(data: seq<byte>): (r: (seq<seq<byte>>, seq<byte>))
    ensures LinesClean(r.0) && NL !in r.1
    ensures Terminated(r.0) + r.1 == data
    decreases |data|
  {
    if NL !in data then ([], data)
    else
      var i := FirstNL(data);
      var rest := Split(data[i + 1..]);
      CutLine(data, i, rest.0, rest.1);
      ([data[..i]] + rest.0, rest.1)
  }

  /** Putting a clean line cut at the first newline in front of a reading of
      the remainder gives a reading of the whole. */
  lemma CutLine(data: seq<byte>, i: nat, lines: seq<seq<byte>>, tail: seq<byte>)
    requires i < |data| && data[i] == NL && NL !in data[..i]
    requires LinesClean(lines) && Terminated(lines) + tail == data[i + 1..]
    ensures LinesClean([data[..i]] + lines)
    ensures Terminated([data[..i]] + lines) + tail == data
  {
    var all := [data[..i]] + lines;
    assert all[0] == data[..i] && all[1..] == lines;
    assert data == data[..i] + [NL] + data[i + 1..];
  }

  /** The first newline after a clean line is the one that ends it. */
  lemma {:induction false} FirstNLAfter(l: seq<byte>, rest: seq<byte>)
    requires NL !in l
    ensures NL in l + [NL] + rest && FirstNL(l + [NL] + rest) == |l|
  {
    var s := l + [NL] + rest;
    assert s[|l|] == NL;
    if l != [] {
      assert s[1..] == l[1..] + [NL] + rest;
      assert forall x | x in l[1..] :: x in l;
      FirstNLAfter(l[1..], rest);
    }
  }

  /** A stream has only one reading as clean lines followed by a clean tail:
      whatever produced such a reading produced `Split`'s. */
  lemma {:induction false} SplitUnique(data: seq<byte>, lines: seq<seq<byte>>, tail: seq<byte>)
    requires LinesClean(lines) && NL !in tail
    requires Terminated(lines) + tail == data
    ensures Split(data) == (lines, tail)
    decreases |lines|
  {
    if lines == [] {
      assert data == tail;
    } else {
      var l := lines[0];
      assert data == l + [NL] + (Terminated(lines[1..]) + tail);
      assert data[..|l|] == l;
      FirstNLAfter(l, Terminated(lines[1..]) + tail);
      var i := FirstNL(data);
      assert data[i + 1..] == Terminated(lines[1..]) + tail;
      SplitUnique(data[i + 1..], lines[1..], tail);
      assert [l] + lines[1..] == lines;
    }
  }

  function CountNL(s: seq<byte>): nat
  {
    if s == [] then 0 else (if s[0] == NL then 1 else 0) + CountNL(s[1..])
  }

  lemma {:induction false} CountNLAppend(a: seq<byte>, b: seq<byte>)
    ensures CountNL(a + b) == CountNL(a) + CountNL(b)
  {
    if a == [] {
      assert a + b == b;
    } else {
      assert (a + b)[1..] == a[1..] + b;
      CountNLAppend(a[1..], b);
    }
  }

  lemma {:induction false} CountNLClean(s: seq<byte>)
    requires NL !in s
    ensures CountNL(s) == 0
  {
    if s != [] {
      assert forall x | x in s[1..] :: x in s;
      CountNLClean(s[1..]);
    }
  }

  /** One line comes out per newline in the stream. */
  lemma {:induction false} SplitCount(data: seq<byte>)
    ensures |Split(data).0| == CountNL(data)
    decreases |data|
  {
    if NL !in data {
      CountNLClean(data);
    } else {
      var i := FirstNL(data);
      assert data == data[..i] + [NL] + data[i + 1..];
      CountNLAppend(data[..i] + [NL], data[i + 1..]);
      CountNLAppend(data[..i], [NL]);
      CountNLClean(data[..i]);
      SplitCount(data[i + 1..]);
    }
  }

  /** How the stream is cut into reads does not matter: splitting after one
      read and then after the next gives the lines of splitting both at once,
      and the same tail. */
  lemma SplitChunks(buf: seq<byte>, c1: seq<byte>, c2: seq<byte>)
    ensures var s1 := Split(buf + c1);
            var s2 := Split(s1.1 + c2);
            Split(buf + c1 + c2) == (s1.0 + s2.0, s2.1)
  {
    var s1 := Split(buf + c1);
    var s2 := Split(s1.1 + c2);
    JoinReadings(s1.0, s1.1, s2.0, s2.1, c2);
    assert buf + c1 + c2 == (buf + c1) + c2;
    SplitUnique(buf + c1 + c2, s1.0 + s2.0, s2.1);
  }

  /** Two consecutive readings, the tail of the first continued by `c`,
      make one reading of the whole. */
  lemma JoinReadings(l1: seq<seq<byte>>, t1: seq<byte>, l2: seq<seq<byte>>, t2: seq<byte>, c: seq<byte>)
    requires LinesClean(l1) && LinesClean(l2)
    requires Terminated(l2) + t2 == t1 + c
    ensures LinesClean(l1 + l2)
    ensures Terminated(l1 + l2) + t2 == Terminated(l1) + t1 + c
  {
    TerminatedAppend(l1, l2);
    assert Terminated(l1 + l2) + t2 == Terminated(l1) + (Terminated(l2) + t2);
  }

  /** Taking the line before the first newline off the buffer keeps the
      reading of the stream. */
  lemma TakeLine(lines: seq<seq<byte>>, buf: seq<byte>, i: nat, data: seq<byte>)
    requires i < |buf| && buf[i] == NL && NL !in buf[..i]
    requires LinesClean(lines) && Terminated(lines) + buf == data
    ensures LinesClean(lines + [buf[..i]])
    ensures Terminated(lines + [buf[..i]]) + buf[i + 1..] == data
  {
    assert buf == buf[..i] + [NL] + buf[i + 1..];
    TerminatedSnoc(lines, buf[..i]);
  }

  /** The buffer `buf` of `iter_lines_serial`. */
  class LineSplitter {
    var buf: seq<byte>

    /** Between reads the buffer holds no newline. */
    predicate Valid()
      reads this
    {
      NL !in buf
    }

    constructor ()
      ensures Valid() && buf == []
    {
      buf := [];
    }

    /** One non-blocking read: an empty `chunk` (a read that timed out)
        changes nothing; otherwise the chunk is appended and every complete
        line is taken off the front, in order. */
    method Feed(chunk: seq<byte>) returns (lines: seq<seq<byte>>)
      requires Valid()
      modifies this
      ensures Valid()
      ensures LinesClean(lines)
      ensures Terminated(lines) + buf == old(buf) + chunk
      ensures (lines, buf) == Split(old(buf) + chunk)
    {
      ghost var data := buf + chunk;
      lines := [];
      if chunk != [] {
        buf := buf + chunk;
        while NL in buf
          invariant LinesClean(lines)
          invariant Terminated(lines) + buf == data
          decreases |buf|
        {
          var i := FirstNL(buf);
          TakeLine(lines, buf, i, data);
          lines := lines + [buf[..i]];
          buf := buf[i + 1..];
        }
      } else {
        assert data == buf;
      }
      SplitUnique(data, lines, buf);
    }
  }
}
