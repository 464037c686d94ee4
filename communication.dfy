// The protocol between the desktop application and the add-on running inside
// Blender: JSON messages separated by a delimiter on a byte stream, the
// message envelope with its optional performance data, and the monitor that
// times extraction and application requests by storage method.

module Communication {
  import opened Text
  import opened Collections
  import opened Json

  // ---------------------------------------------------------------------
  // Framing (`MessageBuffer`)
  // ---------------------------------------------------------------------

  /** The delimiter `ConnectionConfig` and `MessageBuffer` use by default. */
  const DefaultDelimiter: string := "\n###END_MESSAGE###\n"

  /** The complete messages cut out of a buffer, and the rest of the buffer. */
  datatype Split = Split(messages: seq<string>, rest: string)

  /** A delivered message: never empty, and stripping it changes nothing. */
  predicate Trimmed(m: string)
  {
    m != [] && Strip(m) == m
  }

  /** What `strip` leaves is empty or already trimmed. */
  lemma StripTrimmed(s: string)
    ensures Strip(s) == [] || Trimmed(Strip(s))
  {
    StripSpec(s);
    StripNoSpace(Strip(s));
  }

  /** Every message of a list that starts with a trimmed one and goes on with trimmed ones is trimmed. */
  lemma TrimmedCons(m: string, ms: seq<string>)
    requires Trimmed(m)
    requires forall i :: 0 <= i < |ms| ==> Trimmed(ms[i])
    ensures forall i :: 0 <= i < |[m] + ms| ==> Trimmed(([m] + ms)[i])
  {
    forall i | 0 <= i < |[m] + ms| ensures Trimmed(([m] + ms)[i]) {
      if i > 0 {
        assert ([m] + ms)[i] == ms[i - 1];
      }
    }
  }

  /** The text before the first delimiter holds no delimiter. */
  lemma NothingBeforeFirst(buffer: string, delim: string)
    requires |delim| > 0
    requires Find(buffer, delim) >= 0
    ensures !Contains(buffer[..Find(buffer, delim)], delim)
  {
    var e := Find(buffer, delim);
    if Contains(buffer[..e], delim) {
      var j :| 0 <= j <= e - |delim| && OccursAt(buffer[..e], delim, j);
      assert buffer[..e][j..j + |delim|] == buffer[j..j + |delim|];
      assert OccursAt(buffer, delim, j);
      assert false;
    }
  }

  /**
   * `get_complete_messages` as written: cut at the first delimiter, strip the
   * piece, keep it when it is not empty, and strip what follows the delimiter
   * before looking again.
   */
  function FramesAsWritten(buffer: string, delim: string): Split
    requires |delim| > 0
    decreases |buffer|
  {
    var end := Find(buffer, delim);
    if end < 0 then Split([], buffer)
    else
      var piece := Strip(buffer[..end]);
      var tail := FramesAsWritten(Strip(buffer[end + |delim|..]), delim);
      if piece == [] then tail else Split([piece] + tail.messages, tail.rest)
  }

  lemma FramesAsWrittenStep(buffer: string, delim: string)
    requires |delim| > 0 && Find(buffer, delim) >= 0
    ensures var end := Find(buffer, delim);
      var piece := Strip(buffer[..end]);
      var tail := FramesAsWritten(Strip(buffer[end + |delim|..]), delim);
      FramesAsWritten(buffer, delim) == if piece == [] then tail else Split([piece] + tail.messages, tail.rest)
  {
  }

  /** After the loop as written, what stays buffered holds no delimiter. */
  lemma {:induction false} FramesAsWrittenRestClean(buffer: string, delim: string)
    requires |delim| > 0
    ensures !Contains(FramesAsWritten(buffer, delim).rest, delim)
    decreases |buffer|
  {
    var end := Find(buffer, delim);
    if end >= 0 {
      FramesAsWrittenStep(buffer, delim);
      FramesAsWrittenRestClean(Strip(buffer[end + |delim|..]), delim);
    }
  }

  /** Every message of `ms` is trimmed. */
  predicate AllTrimmed(ms: seq<string>)
  {
    forall i :: 0 <= i < |ms| ==> Trimmed(ms[i])
  }

  lemma FramesAsWrittenTrimmedStep(buffer: string, delim: string)
    requires |delim| > 0 && Find(buffer, delim) >= 0
    requires AllTrimmed(FramesAsWritten(Strip(buffer[Find(buffer, delim) + |delim|..]), delim).messages)
    ensures AllTrimmed(FramesAsWritten(buffer, delim).messages)
  {
    var end := Find(buffer, delim);
    var piece := Strip(buffer[..end]);
    var tail := FramesAsWritten(Strip(buffer[end + |delim|..]), delim);
    FramesAsWrittenStep(buffer, delim);
    if piece != [] {
      StripTrimmed(buffer[..end]);
      TrimmedCons(piece, tail.messages);
    }
  }

  /** Every message the loop as written delivers is trimmed. */
  lemma {:induction false} FramesAsWrittenTrimmed(buffer: string, delim: string)
    requires |delim| > 0
    ensures AllTrimmed(FramesAsWritten(buffer, delim).messages)
    decreases |buffer|
  {
    var end := Find(buffer, delim);
    if end < 0 {
      assert FramesAsWritten(buffer, delim).messages == [];
    } else {
      FramesAsWrittenTrimmed(Strip(buffer[end + |delim|..]), delim);
      FramesAsWrittenTrimmedStep(buffer, delim);
    }
  }

  /** `buffer.split(delim)`: the pieces between the delimiters, left to right. */
  function SplitAll(buffer: string, delim: string): (r: seq<string>)
    requires |delim| > 0
    ensures |r| > 0
    decreases |buffer|
  {
    var end := Find(buffer, delim);
    if end < 0 then [buffer]
    else [buffer[..end]] + SplitAll(buffer[end + |delim|..], delim)
  }

  lemma SplitAllStep(buffer: string, delim: string)
    requires |delim| > 0 && Find(buffer, delim) >= 0
    ensures SplitAll(buffer, delim)
         == [buffer[..Find(buffer, delim)]] + SplitAll(buffer[Find(buffer, delim) + |delim|..], delim)
  {
  }

  /** No piece of a split holds the delimiter. */
  lemma {:induction false} SplitAllPiecesClean(buffer: string, delim: string)
    requires |delim| > 0
    ensures forall i :: 0 <= i < |SplitAll(buffer, delim)| ==> !Contains(SplitAll(buffer, delim)[i], delim)
    decreases |buffer|
  {
    var end := Find(buffer, delim);
    if end >= 0 {
      var after := buffer[end + |delim|..];
      var rest := SplitAll(after, delim);
      assert SplitAll(buffer, delim) == [buffer[..end]] + rest;
      NothingBeforeFirst(buffer, delim);
      SplitAllPiecesClean(after, delim);
      forall i | 0 <= i < |SplitAll(buffer, delim)| ensures !Contains(SplitAll(buffer, delim)[i], delim) {
        if i > 0 {
          assert SplitAll(buffer, delim)[i] == rest[i - 1];
        }
      }
    }
  }

  /** Splitting and joining back with the delimiter gives the buffer again. */
  lemma {:induction false} SplitAllJoin(buffer: string, delim: string)
    requires |delim| > 0
    ensures Join(SplitAll(buffer, delim), delim) == buffer
    decreases |buffer|
  {
    var end := Find(buffer, delim);
    if end >= 0 {
      var after := buffer[end + |delim|..];
      var rest := SplitAll(after, delim);
      SplitAllJoin(after, delim);
      assert SplitAll(buffer, delim) == [buffer[..end]] + rest;
      assert ([buffer[..end]] + rest)[1..] == rest;
      assert buffer[end..end + |delim|] == delim;
      assert buffer == buffer[..end] + buffer[end..end + |delim|] + after;
    }
  }

  /** A first occurrence in `s` is still the first one once more text follows. */
  lemma FindAppend(s: string, t: string, delim: string)
    requires Find(s, delim) >= 0
    ensures Find(s + t, delim) == Find(s, delim)
  {
    var e := Find(s, delim);
    assert (s + t)[e..e + |delim|] == s[e..e + |delim|];
    assert OccursAt(s + t, delim, e);
    forall j | 0 <= j < e ensures !OccursAt(s + t, delim, j) {
      if OccursAt(s + t, delim, j) {
        assert (s + t)[j..j + |delim|] == s[j..j + |delim|];
        assert OccursAt(s, delim, j);
      }
    }
  }

  lemma AppendSlices<T>(s: seq<T>, t: seq<T>, i: nat, j: nat)
    requires i <= j <= |s|
    ensures (s + t)[..i] == s[..i]
    ensures (s + t)[j..] == s[j..] + t
  {
  }

  lemma AppendAssoc<T>(a: seq<T>, b: seq<T>, c: seq<T>)
    ensures a + (b + c) == (a + b) + c
  {
  }

  lemma FrontOfAppend<T>(a: seq<T>, b: seq<T>)
    requires |b| > 0
    ensures (a + b)[..|a + b| - 1] == a + b[..|b| - 1]
    ensures (a + b)[|a + b| - 1] == b[|b| - 1]
  {
  }

  lemma FrontOfCons<T>(x: T, s: seq<T>)
    requires |s| > 0
    ensures ([x] + s)[..|s|] == [x] + s[..|s| - 1]
    ensures ([x] + s)[|s|] == s[|s| - 1]
  {
  }

  /** When `s` holds a delimiter, `s + t` splits first where `s` does. */
  lemma SplitAllAppendFound(s: string, t: string, delim: string)
    requires |delim| > 0 && Find(s, delim) >= 0
    ensures var end := Find(s, delim);
      SplitAll(s + t, delim) == [s[..end]] + SplitAll(s[end + |delim|..] + t, delim)
  {
    var end := Find(s, delim);
    var u := s + t;
    FindAppend(s, t, delim);
    assert Find(u, delim) == end;
    AppendSlices(s, t, end, end + |delim|);
    var head, tail := u[..end], u[end + |delim|..];
    assert head == s[..end];
    assert tail == s[end + |delim|..] + t;
    SplitAllStep(u, delim);
    assert SplitAll(u, delim) == [head] + SplitAll(tail, delim);
  }

  /**
   * Splitting `s + t` splits `s`, then splits its last piece followed by `t`:
   * the pieces `s` completes are not affected by what comes after them.
   */
  lemma {:induction false} SplitAllAppend(s: string, t: string, delim: string)
    requires |delim| > 0
    ensures var ps := SplitAll(s, delim);
      SplitAll(s + t, delim) == ps[..|ps| - 1] + SplitAll(ps[|ps| - 1] + t, delim)
    decreases |s|
  {
    var ps := SplitAll(s, delim);
    var end := Find(s, delim);
    if end < 0 {
      assert ps == [s];
      assert ps[..0] == [];
    } else {
      var after := s[end + |delim|..];
      var rest := SplitAll(after, delim);
      assert ps == [s[..end]] + rest;
      SplitAllAppendFound(s, t, delim);
      SplitAllAppend(after, t, delim);
      FrontOfCons(s[..end], rest);
      AppendAssoc([s[..end]], rest[..|rest| - 1], SplitAll(rest[|rest| - 1] + t, delim));
    }
  }

  /** `[p.strip() for p in pieces if p.strip()]`. */
  function Kept(pieces: seq<string>): (r: seq<string>)
    ensures |r| <= |pieces|
  {
    if |pieces| == 0 then []
    else if Strip(pieces[0]) == [] then Kept(pieces[1..])
    else [Strip(pieces[0])] + Kept(pieces[1..])
  }

  lemma KeptCons(p: string, ps: seq<string>)
    ensures Kept([p] + ps) == if Strip(p) == [] then Kept(ps) else [Strip(p)] + Kept(ps)
  {
    assert ([p] + ps)[0] == p && ([p] + ps)[1..] == ps;
  }

  /** Keeping distributes over concatenation. */
  lemma {:induction false} KeptAppend(a: seq<string>, b: seq<string>)
    ensures Kept(a + b) == Kept(a) + Kept(b)
    decreases |a|
  {
    if |a| == 0 {
      assert a + b == b;
    } else {
      assert a + b == [a[0]] + (a[1..] + b);
      assert a == [a[0]] + a[1..];
      KeptCons(a[0], a[1..] + b);
      KeptCons(a[0], a[1..]);
      KeptAppend(a[1..], b);
      if Strip(a[0]) != [] {
        AppendAssoc([Strip(a[0])], Kept(a[1..]), Kept(b));
      }
    }
  }

  /** Every kept piece is trimmed. */
  lemma {:induction false} KeptTrimmed(pieces: seq<string>)
    ensures AllTrimmed(Kept(pieces))
    decreases |pieces|
  {
    if |pieces| > 0 {
      KeptTrimmed(pieces[1..]);
      if Strip(pieces[0]) != [] {
        StripTrimmed(pieces[0]);
        TrimmedCons(Strip(pieces[0]), Kept(pieces[1..]));
      }
    }
  }

  /**
   * The framing the protocol needs: the stripped, non-empty pieces before
   * the last delimiter, in order, and the piece after it left buffered.
   */
  function Frames(buffer: string, delim: string): Split
    requires |delim| > 0
  {
    var pieces := SplitAll(buffer, delim);
    Split(Kept(pieces[..|pieces| - 1]), pieces[|pieces| - 1])
  }

  /** With no delimiter in the buffer nothing is delivered and everything stays. */
  lemma FramesNone(buffer: string, delim: string)
    requires |delim| > 0 && Find(buffer, delim) < 0
    ensures Frames(buffer, delim) == Split([], buffer)
  {
    assert SplitAll(buffer, delim) == [buffer];
    assert [buffer][..0] == [];
  }

  /**
   * One turn of the corrected loop: the piece before the first delimiter,
   * stripped, when it is not empty, then the messages of what follows.
   */
  lemma FramesStep(buffer: string, delim: string)
    requires |delim| > 0 && Find(buffer, delim) >= 0
    ensures var end := Find(buffer, delim);
      var piece := Strip(buffer[..end]);
      var tail := Frames(buffer[end + |delim|..], delim);
      Frames(buffer, delim) == if piece == [] then tail else Split([piece] + tail.messages, tail.rest)
  {
    var end := Find(buffer, delim);
    var rest := SplitAll(buffer[end + |delim|..], delim);
    assert SplitAll(buffer, delim) == [buffer[..end]] + rest;
    FrontOfCons(buffer[..end], rest);
    KeptCons(buffer[..end], rest[..|rest| - 1]);
  }

  /** After framing, what stays buffered holds no delimiter. */
  lemma FramesRestClean(buffer: string, delim: string)
    requires |delim| > 0
    ensures !Contains(Frames(buffer, delim).rest, delim)
  {
    SplitAllPiecesClean(buffer, delim);
  }

  /** Every message the framing delivers is trimmed. */
  lemma FramesTrimmed(buffer: string, delim: string)
    requires |delim| > 0
    ensures AllTrimmed(Frames(buffer, delim).messages)
  {
    var pieces := SplitAll(buffer, delim);
    KeptTrimmed(pieces[..|pieces| - 1]);
  }

  /**
   * Chunking does not matter: taking the messages out of `s` and then out of
   * the rest followed by `t` delivers what one pass over `s + t` delivers,
   * and leaves the same rest.
   */
  lemma FramesAppend(s: string, t: string, delim: string)
    requires |delim| > 0
    ensures var first := Frames(s, delim);
      var second := Frames(first.rest + t, delim);
      Frames(s + t, delim) == Split(first.messages + second.messages, second.rest)
  {
    var ps := SplitAll(s, delim);
    var front := ps[..|ps| - 1];
    var qs := SplitAll(ps[|ps| - 1] + t, delim);
    SplitAllAppend(s, t, delim);
    FrontOfAppend(front, qs);
    KeptAppend(front, qs[..|qs| - 1]);
    var first := Frames(s, delim);
    var second := Frames(first.rest + t, delim);
    assert first.messages == Kept(front) && first.rest == ps[|ps| - 1];
    assert second.messages == Kept(qs[..|qs| - 1]) && second.rest == qs[|qs| - 1];
    assert Frames(s + t, delim).messages == first.messages + second.messages;
    assert Frames(s + t, delim).rest == second.rest;
  }

  /** One turn of the framing loop: the first piece, when not blank after stripping, then the rest. */
  lemma FramesTake(buffer: string, delim: string)
    requires |delim| > 0 && Find(buffer, delim) >= 0
    ensures var end := Find(buffer, delim);
      var piece := Strip(buffer[..end]);
      var tail := Frames(buffer[end + |delim|..], delim);
      Frames(buffer, delim).rest == tail.rest &&
      Frames(buffer, delim).messages == (if piece == [] then [] else [piece]) + tail.messages
  {
    FramesStep(buffer, delim);
    var tail := Frames(buffer[Find(buffer, delim) + |delim|..], delim);
    assert [] + tail.messages == tail.messages;
  }

  /** The first delimiter in one character, the default delimiter and more is right after the character. */
  lemma FindAfterOneChar(c: char, more: string)
    requires !IsSpace(c)
    ensures Find([c] + DefaultDelimiter + more, DefaultDelimiter) == 1
  {
    var d := DefaultDelimiter;
    var buffer := [c] + d + more;
    assert buffer[1..20] == d;
    assert OccursAt(buffer, d, 1);
    assert buffer[0..19][0] == c;
    assert !OccursAt(buffer, d, 0);
  }

  /**
   * Two one-character messages arriving in one chunk: the loop as written
   * delivers only the first, because stripping what follows the first
   * delimiter also strips the newline that ends the second one, and the
   * second message stays in the buffer without a complete delimiter.
   */
  lemma AsWrittenLosesSecondMessage(a: char, b: char)
    requires !IsSpace(a) && !IsSpace(b)
    ensures FramesAsWritten([a] + DefaultDelimiter + [b] + DefaultDelimiter, DefaultDelimiter)
         == Split([[a]], [b] + DefaultDelimiter[..18])
  {
    var d := DefaultDelimiter;
    var buffer := [a] + d + ([b] + d);
    assert [a] + d + [b] + d == buffer;
    FindAfterOneChar(a, [b] + d);
    assert buffer[..1] == [a];
    StripNoSpace([a]);
    var after := buffer[20..];
    assert after == [b] + d;
    var tail := [b] + d[..18];
    StripOneTrailing(after, tail);
    FramesAsWrittenStep(buffer, d);
    UnterminatedStays(b);
  }

  /** One character and the default delimiter short of its last character hold no complete message. */
  lemma UnterminatedStays(b: char)
    requires !IsSpace(b)
    ensures var tail := [b] + DefaultDelimiter[..18];
      FramesAsWritten(tail, DefaultDelimiter) == Split([], tail)
  {
    var d := DefaultDelimiter;
    var tail := [b] + d[..18];
    assert tail[0..19][0] == b;
    assert !OccursAt(tail, d, 0);
    assert Find(tail, d) < 0;
  }

  lemma StripOneTrailing(s: string, r: string)
    requires |s| > 1 && !IsSpace(s[0]) && IsSpace(s[|s| - 1]) && !IsSpace(s[|s| - 2])
    requires r == s[..|s| - 1]
    ensures Strip(s) == r
  {
    assert StripLeft(s) == s;
    assert StripRight(r) == r;
    assert StripRight(s) == r;
  }

  /** One message of one character followed by the delimiter, under the corrected framing. */
  lemma FramesOneMessage(c: char, more: string)
    requires !IsSpace(c)
    ensures Frames([c] + DefaultDelimiter + more, DefaultDelimiter)
         == Split([[c]] + Frames(more, DefaultDelimiter).messages, Frames(more, DefaultDelimiter).rest)
  {
    var d := DefaultDelimiter;
    var buffer := [c] + d + more;
    FindAfterOneChar(c, more);
    assert buffer[..1] == [c];
    StripNoSpace([c]);
    assert buffer[20..] == more;
    FramesStep(buffer, d);
  }

  /** The same chunk under the corrected framing: both messages, nothing left over. */
  lemma FramesDeliversBoth(a: char, b: char)
    requires !IsSpace(a) && !IsSpace(b)
    ensures Frames([a] + DefaultDelimiter + [b] + DefaultDelimiter, DefaultDelimiter)
         == Split([[a], [b]], "")
  {
    var d := DefaultDelimiter;
    assert [a] + d + [b] + d == [a] + d + ([b] + d);
    assert [b] + d == [b] + d + "";
    assert Find("", d) < 0;
    FramesNone("", d);
    FramesOneMessage(b, "");
    FramesOneMessage(a, [b] + d);
  }

  /** `MessageBuffer`: the text received so far and the counters kept about it. */
  class MessageBuffer {
    const delimiter: string
    var buffer: string
    var messageCount: nat
    var bytesProcessed: nat

    /** `MessageBuffer(delimiter)`: an empty buffer, both counters at zero. */
    constructor(delimiter: string)
      ensures this.delimiter == delimiter
      ensures buffer == "" && messageCount == 0 && bytesProcessed == 0
    {
      this.delimiter := delimiter;
      buffer := "";
      messageCount := 0;
      bytesProcessed := 0;
    }

    /** `add_data`: the data goes to the end of the buffer and is counted. */
    method AddData(data: string)
      modifies this
      ensures buffer == old(buffer) + data
      ensures bytesProcessed == old(bytesProcessed) + |data|
      ensures messageCount == old(messageCount)
    {
      buffer := buffer + data;
      bytesProcessed := bytesProcessed + |data|;
    }

    /**
     * `get_complete_messages`: takes every complete message out of the buffer,
     * in order, counting each one; what stays holds no delimiter.
     */
    method GetCompleteMessages() returns (messages: seq<string>)
      requires |delimiter| > 0
      modifies this
      ensures Split(messages, buffer) == Frames(old(buffer), delimiter)
      ensures messageCount == old(messageCount) + |messages|
      ensures bytesProcessed == old(bytesProcessed)
    {
      var delim := delimiter;
      var rest := buffer;
      messages := [];
      ghost var start := Frames(rest, delim);
      while Contains(rest, delim)
        invariant start.messages == messages + Frames(rest, delim).messages
        invariant start.rest == Frames(rest, delim).rest
        modifies {}
        decreases |rest|
      {
        var end := Find(rest, delim);
        var piece := Strip(rest[..end]);
        FramesTake(rest, delim);
        ghost var taken: seq<string> := if piece == [] then [] else [piece];
        rest := rest[end + |delim|..];
        AppendAssoc(messages, taken, Frames(rest, delim).messages);
        if piece != [] {
          messages := messages + [piece];
        } else {
          assert messages + taken == messages;
        }
      }
      FramesNone(rest, delim);
      assert messages + [] == messages;
      buffer := rest;
      messageCount := messageCount + |messages|;
    }

    /** `clear`: an empty buffer and both counters back at zero. */
    method Clear()
      modifies this
      ensures buffer == "" && messageCount == 0 && bytesProcessed == 0
    {
      buffer := "";
      messageCount := 0;
      bytesProcessed := 0;
    }
  }

  // ---------------------------------------------------------------------
  // The message envelope (`Message`)
  // ---------------------------------------------------------------------

  /**
   * A message: its type, its own fields, when it was made and its
   * performance data (a dictionary for every message built here; whatever
   * JSON value the peer sent for one that arrived).
   */
  datatype Message = Message(msgType: Value, data: Dict<Value>, timestamp: Value, performance: Value)

  /** The data holds none of the keys the envelope itself writes. */
  predicate EnvelopeFree(data: Dict<Value>)
  {
    "type" !in data.items && "timestamp" !in data.items && "performance" !in data.items
  }

  /** `Message(msg_type, data)` made at time `now`, with no performance data yet. */
  function NewMessage(msgType: string, data: Dict<Value>, now: real): Message
  {
    Message(Str(msgType), data, Float(now), Obj(Empty()))
  }

  /** `add_performance_data(**extra)`: the performance dictionary updated with `extra`. */
  function AddPerformanceData(m: Message, extra: Dict<Value>): (r: Message)
    requires m.performance.Obj?
    ensures r.performance.Obj? && r.msgType == m.msgType && r.data == m.data && r.timestamp == m.timestamp
    ensures r.performance.fields.items.Keys == m.performance.fields.items.Keys + extra.items.Keys
    ensures forall k :: k in extra.items ==> r.performance.fields.items[k] == extra.items[k]
  {
    m.(performance := Obj(Update(m.performance.fields, extra)))
  }

  /**
   * `to_dict`: type and timestamp, then the data (whose keys win), then the
   * performance data only when it is non-empty.
   */
  function ToDict(m: Message): (r: Dict<Value>)
    ensures r.items.Keys == {"type", "timestamp"} + m.data.items.Keys + (if Truthy(m.performance) then {"performance"} else {})
    ensures Truthy(m.performance) ==> r.items["performance"] == m.performance
    ensures "type" !in m.data.items ==> r.items["type"] == m.msgType
    ensures "timestamp" !in m.data.items ==> r.items["timestamp"] == m.timestamp
  {
    var base := Update(Envelope(m), m.data);
    if Truthy(m.performance) then Put(base, "performance", m.performance) else base
  }

  /** The two entries every message starts with. */
  function Envelope(m: Message): (r: Dict<Value>)
    ensures r.keys == ["type", "timestamp"]
    ensures r.items == map["type" := m.msgType, "timestamp" := m.timestamp]
  {
    Put(Put(Empty(), "type", m.msgType), "timestamp", m.timestamp)
  }

  /** The data's own entries reach the dictionary unchanged, unless performance data replaces one. */
  lemma ToDictData(m: Message, k: string)
    requires k in m.data.items
    requires k != "performance" || !Truthy(m.performance)
    ensures ToDict(m).items[k] == m.data.items[k]
  {
  }

  /**
   * `from_json` on the parsed JSON value: fails (the Python raises) unless
   * it is an object with a "type"; timestamp and performance default to
   * `now` and an empty dictionary; every other key stays in the data.
   */
  function FromJson(v: Value, now: real): (r: Option<Message>)
    ensures r.Some? <==> v.Obj? && "type" in v.fields.items
    ensures r.Some? ==> r.value.msgType == v.fields.items["type"] && EnvelopeFree(r.value.data)
    ensures r.Some? ==> r.value.timestamp == LookupOr(v.fields, "timestamp", Float(now))
    ensures r.Some? ==> r.value.performance == LookupOr(v.fields, "performance", Obj(Empty()))
    ensures r.Some? ==> r.value.data.items == v.fields.items - {"type", "timestamp", "performance"}
  {
    if !v.Obj? || "type" !in v.fields.items then None
    else
      Some(Message(v.fields.items["type"], WithoutEnvelope(v.fields),
        LookupOr(v.fields, "timestamp", Float(now)), LookupOr(v.fields, "performance", Obj(Empty()))))
  }

  /** The three `pop`s of `from_json`, one after another. */
  function WithoutEnvelope(d: Dict<Value>): (r: Dict<Value>)
    ensures r.items == d.items - {"type", "timestamp", "performance"}
    ensures r.keys == RemoveKey(RemoveKey(RemoveKey(d.keys, "type"), "timestamp"), "performance")
  {
    Remove(Remove(Remove(d, "type"), "timestamp"), "performance")
  }

  /** The key order `to_dict` produces for data free of envelope keys. */
  lemma ToDictKeys(m: Message)
    requires EnvelopeFree(m.data)
    ensures ToDict(m).keys == ["type", "timestamp"] + m.data.keys + (if Truthy(m.performance) then ["performance"] else [])
  {
    PutAllFresh(Envelope(m), m.data.keys, m.data.items);
  }

  /** Taking the three envelope keys out of `to_dict`'s key order leaves the data's. */
  lemma EnvelopeKeysRemoved(ks: seq<string>, extra: seq<string>)
    requires "type" !in ks && "timestamp" !in ks && "performance" !in ks
    requires extra == [] || extra == ["performance"]
    ensures RemoveKey(RemoveKey(RemoveKey(["type", "timestamp"] + ks + extra, "type"), "timestamp"), "performance") == ks
  {
    assert ["type", "timestamp"] + ks + extra == ["type"] + (["timestamp"] + (ks + extra));
    RemoveKeyAppend(["type"], ["timestamp"] + (ks + extra), "type");
    RemoveKeyAbsent(["timestamp"] + (ks + extra), "type");
    assert RemoveKey(["type"], "type") == [];
    RemoveKeyAppend(["timestamp"], ks + extra, "timestamp");
    RemoveKeyAbsent(ks + extra, "timestamp");
    assert RemoveKey(["timestamp"], "timestamp") == [];
    RemoveKeyAppend(ks, extra, "performance");
    RemoveKeyAbsent(ks, "performance");
    assert RemoveKey(extra, "performance") == [];
  }

  /** The `pop`s of `from_json` leave the data's keys in their order. */
  lemma WithoutEnvelopeKeys(m: Message)
    requires EnvelopeFree(m.data)
    ensures WithoutEnvelope(ToDict(m)).keys == m.data.keys
  {
    ToDictKeys(m);
    EnvelopeKeysRemoved(m.data.keys, if Truthy(m.performance) then ["performance"] else []);
  }

  /** The `pop`s of `from_json` leave the data's entries. */
  lemma WithoutEnvelopeItems(m: Message)
    requires EnvelopeFree(m.data)
    ensures WithoutEnvelope(ToDict(m)).items == m.data.items
  {
    var d := ToDict(m).items;
    forall k | k in m.data.items ensures d[k] == m.data.items[k] {
      ToDictData(m, k);
    }
    EnvelopeRemoved(d, m.data.items);
  }

  /** A map holding the data's entries plus envelope keys, with the envelope keys taken out. */
  lemma EnvelopeRemoved(d: map<string, Value>, data: map<string, Value>)
    requires "type" !in data && "timestamp" !in data && "performance" !in data
    requires data.Keys <= d.Keys <= data.Keys + {"type", "timestamp", "performance"}
    requires forall k :: k in data ==> d[k] == data[k]
    ensures d - {"type", "timestamp", "performance"} == data
  {
  }

  /** `to_dict` followed by the `pop`s of `from_json` gives back the data, keys in order. */
  lemma WithoutEnvelopeToDict(m: Message)
    requires EnvelopeFree(m.data)
    ensures WithoutEnvelope(ToDict(m)) == m.data
  {
    WithoutEnvelopeKeys(m);
    WithoutEnvelopeItems(m);
  }

  /** A dictionary value that is not truthy is the empty dictionary. */
  lemma EmptyObj(v: Value)
    requires v.Obj?
    ensures !Truthy(v) ==> v == Obj(Empty())
  {
    if !Truthy(v) {
      assert v.fields.items == map[];
    }
  }

  /**
   * A message whose data avoids the envelope keys and whose performance data
   * is a dictionary comes back unchanged from `from_json(to_json())`.
   */
  lemma FromJsonToDict(m: Message, now: real)
    requires EnvelopeFree(m.data)
    requires m.performance.Obj?
    ensures FromJson(Obj(ToDict(m)), now) == Some(m)
  {
    EmptyObj(m.performance);
    var d := ToDict(m);
    WithoutEnvelopeToDict(m);
    assert LookupOr(d, "timestamp", Float(now)) == m.timestamp;
    assert LookupOr(d, "performance", Obj(Empty())) == m.performance;
    var r := FromJson(Obj(d), now);
    assert r.Some? && r.value.msgType == m.msgType;
  }

  /**
   * A received object with a type, a timestamp and non-empty (or no)
   * performance data is written back by `to_dict` with the same entries.
   */
  lemma ToDictFromJson(v: Value, now: real)
    requires v.Obj? && "type" in v.fields.items && "timestamp" in v.fields.items
    requires "performance" in v.fields.items ==> Truthy(v.fields.items["performance"])
    ensures FromJson(v, now).Some?
    ensures ToDict(FromJson(v, now).value).items == v.fields.items
  {
    var sent := v.fields.items;
    var m := FromJson(v, now).value;
    assert m.msgType == sent["type"] && m.timestamp == sent["timestamp"];
    if "performance" in sent {
      assert m.performance == sent["performance"];
    } else {
      assert m.performance == Obj(Empty());
      assert !Truthy(m.performance);
    }
    ToDictOfReceived(m, sent);
  }

  /** A message whose envelope and data are the entries of `sent` is written back as `sent`. */
  lemma ToDictOfReceived(m: Message, sent: map<string, Value>)
    requires "type" in sent && m.msgType == sent["type"]
    requires "timestamp" in sent && m.timestamp == sent["timestamp"]
    requires "performance" in sent <==> Truthy(m.performance)
    requires "performance" in sent ==> m.performance == sent["performance"]
    requires m.data.items == sent - {"type", "timestamp", "performance"}
    ensures ToDict(m).items == sent
  {
    var d := ToDict(m).items;
    forall k | k in sent ensures k in d && d[k] == sent[k] {
      ToDictOfReceivedAt(m, sent, k);
    }
    ToDictKeysOfReceived(m, sent);
    SameMap(d, sent);
  }

  lemma ToDictKeysOfReceived(m: Message, sent: map<string, Value>)
    requires "performance" in sent <==> Truthy(m.performance)
    requires m.data.items == sent - {"type", "timestamp", "performance"}
    requires "type" in sent && "timestamp" in sent
    ensures ToDict(m).items.Keys <= sent.Keys
  {
    var keys := ToDict(m).items.Keys;
    assert keys == {"type", "timestamp"} + m.data.items.Keys + (if Truthy(m.performance) then {"performance"} else {});
    forall k | k in keys ensures k in sent {
      if k in m.data.items.Keys {
        assert k in sent - {"type", "timestamp", "performance"};
      }
    }
  }

  lemma ToDictOfReceivedAt(m: Message, sent: map<string, Value>, k: string)
    requires "type" in sent && m.msgType == sent["type"]
    requires "timestamp" in sent && m.timestamp == sent["timestamp"]
    requires "performance" in sent <==> Truthy(m.performance)
    requires "performance" in sent ==> m.performance == sent["performance"]
    requires m.data.items == sent - {"type", "timestamp", "performance"}
    requires k in sent
    ensures k in ToDict(m).items && ToDict(m).items[k] == sent[k]
  {
    if k == "type" || k == "timestamp" || k == "performance" {
    } else {
      assert k in m.data.items;
      ToDictData(m, k);
    }
  }

  /** Two maps with the same keys and the same value at every key are equal. */
  lemma SameMap(a: map<string, Value>, b: map<string, Value>)
    requires a.Keys <= b.Keys
    requires forall k :: k in b ==> k in a && a[k] == b[k]
    ensures a == b
  {
  }

  /** `Message.command(command, **kwargs)`; a keyword named "command" is a TypeError in Python. */
  function CommandMessage(command: string, kwargs: Dict<Value>, now: real): (m: Message)
    requires "command" !in kwargs.items
    ensures m.msgType == Str("command") && Lookup(m.data, "command") == Some(Str(command))
    ensures forall k :: k in kwargs.items ==> Lookup(m.data, k) == Some(kwargs.items[k])
  {
    NewMessage("command", Update(Put(Empty(), "command", Str(command)), kwargs), now)
  }

  /** `Message.blend_file_command`: the storage method is "blend_file" unless a keyword overrides it. */
  function BlendFileCommand(command: string, animationData: Value, kwargs: Dict<Value>, now: real): Message
    requires "command" !in kwargs.items && "animation_data" !in kwargs.items
  {
    AddPerformanceData(NewMessage("command", Update(BlendFileFields(command, animationData), kwargs), now),
      Pair("expected_time", Float(0.5), "storage_type", Str("blend_file")))
  }

  /** The fields `blend_file_command` writes before the keywords. */
  function BlendFileFields(command: string, animationData: Value): (r: Dict<Value>)
    ensures r.items == map["command" := Str(command), "animation_data" := animationData, "storage_method" := Str("blend_file")]
  {
    Put(Put(Put(Empty(), "command", Str(command)), "animation_data", animationData), "storage_method", Str("blend_file"))
  }

  /** A two-entry dictionary. */
  function Pair(k1: string, v1: Value, k2: string, v2: Value): (r: Dict<Value>)
    requires k1 != k2
    ensures r.items == map[k1 := v1, k2 := v2]
  {
    Put(Put(Empty(), k1, v1), k2, v2)
  }

  /**
   * `create_blend_file_message`: a command carrying the animation data, with
   * "blend_file" recorded only in the performance data.
   */
  function CreateBlendFileMessage(command: string, animationData: Value, kwargs: Dict<Value>, now: real): Message
    requires "command" !in kwargs.items && "animation_data" !in kwargs.items
  {
    var args := Update(Put(Empty(), "animation_data", animationData), kwargs);
    AddPerformanceData(CommandMessage(command, args, now),
      Pair("storage_method", Str("blend_file"), "expected_performance", Str("instant")))
  }

  /**
   * A `.blend` command carries the command and the animation data as given,
   * every keyword, and performance data naming the `.blend` storage type.
   */
  lemma BlendFileCommandFields(command: string, animationData: Value, kwargs: Dict<Value>, now: real)
    requires "command" !in kwargs.items && "animation_data" !in kwargs.items
    ensures var m := BlendFileCommand(command, animationData, kwargs, now);
      m.msgType == Str("command") && Lookup(m.data, "command") == Some(Str(command)) &&
      Lookup(m.data, "animation_data") == Some(animationData) &&
      (forall k :: k in kwargs.items ==> Lookup(m.data, k) == Some(kwargs.items[k])) &&
      m.performance.Obj? && Lookup(m.performance.fields, "storage_type") == Some(Str("blend_file"))
  {
  }

  /**
   * `create_blend_file_message` carries the command, the animation data and
   * every keyword, and names the `.blend` storage in its performance data.
   */
  lemma CreateBlendFileMessageFields(command: string, animationData: Value, kwargs: Dict<Value>, now: real)
    requires "command" !in kwargs.items && "animation_data" !in kwargs.items
    ensures var m := CreateBlendFileMessage(command, animationData, kwargs, now);
      m.msgType == Str("command") && Lookup(m.data, "command") == Some(Str(command)) &&
      Lookup(m.data, "animation_data") == Some(animationData) &&
      (forall k :: k in kwargs.items ==> Lookup(m.data, k) == Some(kwargs.items[k])) &&
      m.performance.Obj? && Lookup(m.performance.fields, "storage_method") == Some(Str("blend_file"))
  {
  }

  /** `detect_message_performance_level`: read off the data's storage method. */
  function DetectMessagePerformanceLevel(m: Message): (r: string)
    ensures r == "instant" <==> Lookup(m.data, "storage_method") == Some(Str("blend_file"))
    ensures r == "slow" <==> Lookup(m.data, "storage_method") == Some(Str("json_keyframes"))
  {
    var storage := Lookup(m.data, "storage_method");
    if storage == Some(Str("blend_file")) then "instant"
    else if storage == Some(Str("json_keyframes")) then "slow"
    else "unknown"
  }

  /** A `.blend` command is detected as instant unless a keyword overrides its storage method. */
  lemma BlendFileCommandIsInstant(command: string, animationData: Value, kwargs: Dict<Value>, now: real)
    requires "command" !in kwargs.items && "animation_data" !in kwargs.items
    requires "storage_method" !in kwargs.items
    ensures DetectMessagePerformanceLevel(BlendFileCommand(command, animationData, kwargs, now)) == "instant"
  {
  }

  /**
   * `create_blend_file_message` puts "blend_file" in the performance data
   * only, so without a storage keyword its message is detected as unknown.
   */
  lemma CreatedBlendFileMessageIsUnknown(command: string, animationData: Value, kwargs: Dict<Value>, now: real)
    requires "command" !in kwargs.items && "animation_data" !in kwargs.items
    requires "storage_method" !in kwargs.items
    ensures DetectMessagePerformanceLevel(CreateBlendFileMessage(command, animationData, kwargs, now)) == "unknown"
  {
    var key := "storage_method";
    assert key[0] != "animation_data"[0] && key[0] != "command"[0];
    var args := Update(Put(Empty(), "animation_data", animationData), kwargs);
    assert key !in args.items;
    var plain := CommandMessage(command, args, now);
    assert key !in plain.data.items;
  }

  // ---------------------------------------------------------------------
  // Timing operations (`PerformanceMonitor`)
  // ---------------------------------------------------------------------

  /** What `start_operation` remembers of a running operation. */
  datatype OpStart = OpStart(startTime: real, opType: string)

  /** The operation types whose results are sorted by storage method. */
  predicate IsAnimationOp(opType: string)
  {
    opType == "extract_animation" || opType == "apply_animation"
  }

  /** `kwargs.get("storage_method", "unknown") == "blend_file"`. */
  predicate StoredInBlendFile(kwargs: Dict<Value>)
  {
    Lookup(kwargs, "storage_method") == Some(Str("blend_file"))
  }

  /** A finished operation: what `end_operation` measured plus the keywords it was given. */
  datatype OpRecord = OpRecord(duration: real, success: bool, opType: string, keywords: Dict<Value>)

  /** The dictionary `end_operation` builds: duration, success, type, then the keywords. */
  function RecordDict(rec: OpRecord): Dict<Value>
  {
    Update(RecordHead(rec.duration, rec.success, rec.opType), rec.keywords)
  }

  /** The three entries every operation record starts with. */
  function RecordHead(duration: real, success: bool, opType: string): (r: Dict<Value>)
    ensures r.items == map["duration" := Float(duration), "success" := Bool(success), "type" := Str(opType)]
  {
    Put(Put(Put(Empty(), "duration", Float(duration)), "success", Bool(success)), "type", Str(opType))
  }

  /** The record's dictionary names the `.blend` storage exactly when its keywords do. */
  lemma RecordDictStorage(rec: OpRecord)
    ensures StoredInBlendFile(RecordDict(rec)) <==> StoredInBlendFile(rec.keywords)
  {
    var key := "storage_method";
    assert key != "duration" && key != "success" && key != "type" by {
      assert |key| == 14;
    }
    var head := RecordHead(rec.duration, rec.success, rec.opType);
    assert key !in head.items;
    assert Lookup(RecordDict(rec), key) == Lookup(rec.keywords, key);
  }

  /**
   * The record's dictionary holds every keyword as given, the success flag
   * (which no keyword may replace), and the duration and type unless a
   * keyword replaces them.
   */
  lemma RecordDictFields(rec: OpRecord)
    requires "success" !in rec.keywords.items
    ensures forall k :: k in rec.keywords.items ==> Lookup(RecordDict(rec), k) == Some(rec.keywords.items[k])
    ensures Lookup(RecordDict(rec), "success") == Some(Bool(rec.success))
    ensures "duration" !in rec.keywords.items ==> Lookup(RecordDict(rec), "duration") == Some(Float(rec.duration))
    ensures "type" !in rec.keywords.items ==> Lookup(RecordDict(rec), "type") == Some(Str(rec.opType))
  {
  }

  class PerformanceMonitor {
    var messageTimes: Dict<OpStart>
    var blendOps: seq<OpRecord>
    var jsonOps: seq<OpRecord>

    /**
     * Only extractions and applications are filed; every `.blend` record
     * names that storage, and no JSON record does.
     */
    ghost predicate Valid()
      reads this
    {
      (forall i :: 0 <= i < |blendOps| ==> IsAnimationOp(blendOps[i].opType) && StoredInBlendFile(blendOps[i].keywords)) &&
      (forall i :: 0 <= i < |jsonOps| ==> IsAnimationOp(jsonOps[i].opType) && !StoredInBlendFile(jsonOps[i].keywords))
    }

    constructor()
      ensures Valid()
      ensures messageTimes == Empty() && blendOps == [] && jsonOps == []
    {
      messageTimes := Empty();
      blendOps := [];
      jsonOps := [];
    }

    /** `start_operation`: remember (or restart) the operation under its id. */
    method StartOperation(id: string, opType: string, now: real)
      requires Valid()
      modifies this
      ensures Valid()
      ensures messageTimes == Put(old(messageTimes), id, OpStart(now, opType))
      ensures blendOps == old(blendOps) && jsonOps == old(jsonOps)
    {
      messageTimes := Put(messageTimes, id, OpStart(now, opType));
    }

    /**
     * `end_operation`: an unknown id gives None and changes nothing; a known
     * one is forgotten and its record returned, and an extraction or
     * application is filed under its storage method.
     */
    method EndOperation(id: string, success: bool, kwargs: Dict<Value>, now: real) returns (r: Option<OpRecord>)
      requires Valid()
      requires "success" !in kwargs.items
      modifies this
      ensures Valid()
      ensures id !in old(messageTimes.items) ==>
        r == None && messageTimes == old(messageTimes) && blendOps == old(blendOps) && jsonOps == old(jsonOps)
      ensures id in old(messageTimes.items) ==>
        var start := old(messageTimes.items[id]);
        r == Some(OpRecord(now - start.startTime, success, start.opType, kwargs)) &&
        messageTimes == Remove(old(messageTimes), id) &&
        (IsAnimationOp(start.opType) && StoredInBlendFile(kwargs) ==> blendOps == old(blendOps) + [r.value] && jsonOps == old(jsonOps)) &&
        (IsAnimationOp(start.opType) && !StoredInBlendFile(kwargs) ==> blendOps == old(blendOps) && jsonOps == old(jsonOps) + [r.value]) &&
        (!IsAnimationOp(start.opType) ==> blendOps == old(blendOps) && jsonOps == old(jsonOps))
    {
      if id !in messageTimes.items {
        return None;
      }
      var start := messageTimes.items[id];
      var record := OpRecord(now - start.startTime, success, start.opType, kwargs);
      messageTimes := Remove(messageTimes, id);
      File(record);
      r := Some(record);
    }

    /** Files a finished extraction or application under its storage method; other operations are not filed. */
    method File(record: OpRecord)
      requires Valid()
      modifies this
      ensures Valid()
      ensures messageTimes == old(messageTimes)
      ensures IsAnimationOp(record.opType) && StoredInBlendFile(record.keywords) ==>
        blendOps == old(blendOps) + [record] && jsonOps == old(jsonOps)
      ensures IsAnimationOp(record.opType) && !StoredInBlendFile(record.keywords) ==>
        blendOps == old(blendOps) && jsonOps == old(jsonOps) + [record]
      ensures !IsAnimationOp(record.opType) ==> blendOps == old(blendOps) && jsonOps == old(jsonOps)
    {
      if IsAnimationOp(record.opType) {
        if StoredInBlendFile(record.keywords) {
          blendOps := blendOps + [record];
        } else {
          jsonOps := jsonOps + [record];
        }
      }
    }

    /** The counts of `get_performance_summary`: every filed operation is counted once. */
    method GetPerformanceSummary() returns (total: nat, blend: nat, json: nat)
      ensures blend == |blendOps| && json == |jsonOps|
      ensures total == blend + json
    {
      blend := |blendOps|;
      json := |jsonOps|;
      total := blend + json;
    }
  }
}
