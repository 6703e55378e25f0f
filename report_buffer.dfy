/** Building one fixed-length report buffer from a configured byte-string
    (`HIDController.parse_user_buf`) and the size the dispatcher asks for (the number of
    comma-separated tokens of the byte-string). */
module ReportBuffer {
  import opened Values

  /** What evaluating the configured text yields: an exception, a list or tuple (its
      elements, of any type), or a value of another type, which has no length. */
  datatype EvalOutcome = Fail | ListOrTuple(elems: seq<Value>) | Other

  /** The result of `parse_user_buf`: the buffer it returns, or the exception raised by
      `len` on a parsed value that is not a list or tuple (it escapes to the caller). */
  datatype ParseOutcome = Parsed(buf: seq<Value>) | LengthError

  /** `[0] * n` */
  function Zeros(n: nat): (r: seq<Value>)
    ensures |r| == n
    ensures forall k :: 0 <= k < n ==> r[k] == VInt(0)
  {
    if n == 0 then [] else Zeros(n - 1) + [VInt(0)]
  }

  /** The parsed elements cut or zero-padded to exactly `size` entries. */
  function Padded(elems: seq<Value>, size: nat): (r: seq<Value>)
    ensures |r| == size
    ensures forall k :: 0 <= k < size && k < |elems| ==> r[k] == elems[k]
    ensures forall k :: |elems| <= k < size ==> r[k] == VInt(0)
  {
    if size <= |elems| then elems[..size] else elems + Zeros(size - |elems|)
  }

  /** What `parse_user_buf` returns for a given evaluation outcome and size: the empty
      buffer after a failed evaluation, exactly `size` entries (the parsed element where
      one exists, else 0) for a list or tuple, and the length error only for any other
      value. */
  function ParseResult(raw: EvalOutcome, size: nat): (r: ParseOutcome)
    ensures r.LengthError? <==> raw.Other?
    ensures raw.Fail? ==> r == Parsed([])
    ensures raw.ListOrTuple? ==> |r.buf| == size
    ensures raw.ListOrTuple? ==> forall k :: 0 <= k < size ==>
              r.buf[k] == if k < |raw.elems| then raw.elems[k] else VInt(0)
  {
    match raw
    case Fail => Parsed([])
    case ListOrTuple(elems) => Parsed(Padded(elems, size))
    case Other => LengthError
  }

  /** `parse_user_buf(raw_buffer, buffer_size)`, with `eval` already applied. A failed
      evaluation gives the empty buffer; a list or tuple is copied by position into a
      zero-filled buffer of `bufferSize` entries, elements unchanged (the loop that would
      turn strings into 0 looks at the zero-filled buffer, not at the parsed value); any
      other value is only logged, and then `len` raises. */
  method ParseUserBuf(raw: EvalOutcome, bufferSize: nat) returns (r: ParseOutcome)
    ensures r == ParseResult(raw, bufferSize)
    ensures raw.Fail? ==> r == Parsed([])
    ensures raw.Other? <==> r == LengthError
    ensures raw.ListOrTuple? ==> r.Parsed? && |r.buf| == bufferSize
    ensures raw.ListOrTuple? ==> forall k :: 0 <= k < bufferSize ==>
              r.buf[k] == if k < |raw.elems| then raw.elems[k] else VInt(0)
  {
    var buf := new Value[bufferSize](_ => VInt(0));
    if raw.Fail? {
      return Parsed([]);
    }
    if raw.ListOrTuple? {
      for i := 0 to buf.Length
        invariant forall k :: 0 <= k < buf.Length ==> buf[k] == VInt(0)
      {
        // a string entry becomes 0; every other entry is written back unchanged
        buf[i] := if buf[i].VStr? then VInt(0) else buf[i];
      }
    }
    if raw.Other? {
      return LengthError;
    }
    var elems := raw.elems;
    var n := if bufferSize < |elems| then bufferSize else |elems|;
    for i := 0 to n
      invariant forall k :: 0 <= k < i ==> buf[k] == elems[k]
      invariant forall k :: i <= k < buf.Length ==> buf[k] == VInt(0)
    {
      buf[i] := elems[i];
    }
    r := Parsed(buf[..]);
  }

  /** `s.split(sep)` with an explicit separator: the pieces between separators, the
      empty string included (so "" gives one piece and a trailing separator an empty
      last piece). */
  function Split(s: string, sep: char): (pieces: seq<string>)
    ensures |pieces| >= 1
    decreases |s|
  {
    if s == [] then [""]
    else
      var rest := Split(s[1..], sep);
      if s[0] == sep then [""] + rest else [[s[0]] + rest[0]] + rest[1..]
  }

  /** Pieces glued back together with the separator between them. */
  function Join(pieces: seq<string>, sep: char): string
    requires |pieces| >= 1
    decreases |pieces|
  {
    if |pieces| == 1 then pieces[0] else pieces[0] + [sep] + Join(pieces[1..], sep)
  }

  /** The buffer size the dispatcher passes: `len(raw_buffer.split(','))`. It is the
      comma count plus one, so a trailing comma adds a zero slot. */
  function TokenCount(text: string): (n: nat)
    ensures n == multiset(text)[','] + 1
  {
    SplitCount(text, ',');
    |Split(text, ',')|
  }

  /** Splitting yields one more piece than there are separators. */
  lemma {:induction false} SplitCount(s: string, sep: char)
    ensures |Split(s, sep)| == multiset(s)[sep] + 1
    decreases |s|
  {
    if s != [] {
      SplitCount(s[1..], sep);
      assert s == [s[0]] + s[1..];
      assert multiset(s) == multiset([s[0]]) + multiset(s[1..]);
    }
  }

  /** No piece contains the separator. */
  lemma {:induction false} SplitPiecesFree(s: string, sep: char)
    ensures forall p :: p in Split(s, sep) ==> sep !in p
    decreases |s|
  {
    if s != [] {
      SplitPiecesFree(s[1..], sep);
      var rest := Split(s[1..], sep);
      if s[0] != sep {
        assert sep !in rest[0];
        assert forall p :: p in rest[1..] ==> p in rest;
      }
    }
  }

  /** Joining the pieces with the separator gives back the text. */
  lemma {:induction false} JoinSplit(s: string, sep: char)
    ensures Join(Split(s, sep), sep) == s
    decreases |s|
  {
    if s != [] {
      JoinSplit(s[1..], sep);
      var rest := Split(s[1..], sep);
      if s[0] != sep {
        var ps := [[s[0]] + rest[0]] + rest[1..];
        if |rest| > 1 {
          assert ps[1..] == rest[1..];
          assert Join(rest, sep) == rest[0] + [sep] + Join(rest[1..], sep);
        }
      } else {
        assert ([""] + rest)[1..] == rest;
      }
    }
  }

  /** The worked examples: "1,2,3" gives [1,2,3]; [1,2] asked for 5 entries is zero
      padded; [1,2,3,4] asked for 2 is truncated; a text that does not evaluate gives []. */
  lemma ParseExamples()
    ensures ParseResult(ListOrTuple([VInt(1), VInt(2), VInt(3)]), TokenCount("1,2,3"))
            == Parsed([VInt(1), VInt(2), VInt(3)])
    ensures ParseResult(ListOrTuple([VInt(1), VInt(2)]), 5)
            == Parsed([VInt(1), VInt(2), VInt(0), VInt(0), VInt(0)])
    ensures ParseResult(ListOrTuple([VInt(1), VInt(2), VInt(3), VInt(4)]), 2)
            == Parsed([VInt(1), VInt(2)])
    ensures ParseResult(Fail, 3) == Parsed([])
  {
    assert multiset("1,2,3")[','] == 2;
  }
}
