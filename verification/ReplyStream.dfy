/**
 What the reply builder computes over a whole connection: a buffer, at most one
 unfinished builder and the queue of finished replies.
 */
module ReplyStream {
  import opened Grammar
  import opened Lists
  import opened Parsing
  import opened Resp
  import opened Wrappers

  datatype Stream = Stream(buffer: string, builder: Option<Builder>, replies: seq<Reply>)

  // A protocol error stops the stream; the replies built before it remain.
  datatype Fed = Fine(state: Stream) | Failed(replies: seq<Reply>)

  const INITIAL: Stream := Stream("", None, [])

  // Build replies from the buffer until it holds no complete one.
  function Drain(st: Stream): (f: Fed)
    decreases |st.buffer|, st.builder.Some?
  {
    if st.buffer == "" then Fine(st) else
    match if st.builder.Some? then Consume(st.builder.value, st.buffer) else Start(st.buffer)
    case Bad => Failed(st.replies)
    case More(b, rest) => Fine(Stream(rest, Some(b), st.replies))
    case Ready(r, rest) => Drain(Stream(rest, None, st.replies + [r]))
  }

  function Feed(st: Stream, data: string): Fed {
    Drain(st.(buffer := st.buffer + data))
  }

  function FeedAll(st: Stream, chunks: seq<string>): Fed
    decreases |chunks|
  {
    if chunks == [] then Fine(st) else
    match Feed(st, chunks[0])
    case Failed(rs) => Failed(rs)
    case Fine(st') => FeedAll(st', chunks[1..])
  }

  function Join(chunks: seq<string>): string {
    if chunks == [] then "" else chunks[0] + Join(chunks[1..])
  }

  function Replies(f: Fed): seq<Reply> {
    match f
    case Fine(st) => st.replies
    case Failed(rs) => rs
  }

  // No reply can be built without further bytes: how every call leaves the stream.
  ghost predicate Settled(st: Stream) {
    Drain(st) == Fine(st)
  }

  function FeedMore(f: Fed, t: string): Fed {
    match f
    case Failed(rs) => Failed(rs)
    case Fine(st) => Feed(st, t)
  }

  lemma {:induction false} DrainResumes(st: Stream, t: string)
    ensures Drain(st.(buffer := st.buffer + t)) == FeedMore(Drain(st), t)
    decreases |st.buffer|, st.builder.Some?
  {
    if st.buffer == "" {
      assert "" + t == t;
    } else {
      var inner := if st.builder.Some? then Consume(st.builder.value, st.buffer) else Start(st.buffer);
      StepResumes(st, t);
      match inner
      case Bad =>
      case More(b, rest) =>
        if rest + t == "" {
          NothingToDo(b);
        }
      case Ready(r, rest) =>
        DrainResumes(Stream(rest, None, st.replies + [r]), t);
    }
  }

  lemma StepResumes(st: Stream, t: string)
    requires st.buffer != ""
    ensures var inner := if st.builder.Some? then Consume(st.builder.value, st.buffer) else Start(st.buffer);
            Resume(inner, t) ==
            if st.builder.Some? then Consume(st.builder.value, st.buffer + t) else Start(st.buffer + t)
  {
    var s := st.buffer;
    if st.builder.Some? {
      Resumable(st.builder.value, s, t);
    } else {
      assert (s + t)[1..] == s[1..] + t;
      if Create(s[0]).Some? {
        Resumable(Create(s[0]).value, s[1..], t);
      }
    }
  }

  lemma FeedSplit(st: Stream, a: string, b: string)
    ensures Feed(st, a + b) == FeedMore(Feed(st, a), b)
  {
    DrainResumes(st.(buffer := st.buffer + a), b);
    hide Drain;
    Assoc(st.buffer, a, b);
  }

  lemma {:induction false} FeedSettles(st: Stream, data: string)
    ensures Feed(st, data).Fine? ==> Settled(Feed(st, data).state)
  {
    var full := st.(buffer := st.buffer + data);
    DrainResumes(full, "");
    assert full.buffer + "" == full.buffer;
    var f := Drain(full);
    if f.Fine? {
      assert f.state.buffer + "" == f.state.buffer;
    }
  }

  /**
   Chunk invariance: however the bytes are cut, the stream ends in the same
   state, so the replies so far and everything after are the same.
   */
  lemma {:induction false} ChunksDoNotMatter(st: Stream, chunks: seq<string>)
    requires Settled(st)
    ensures FeedAll(st, chunks) == Feed(st, Join(chunks))
    decreases |chunks|
  {
    if chunks == [] {
      assert st.buffer + "" == st.buffer;
    } else {
      var f := Feed(st, chunks[0]);
      hide Feed, Settled;
      FeedSettles(st, chunks[0]);
      FeedSplit(st, chunks[0], Join(chunks[1..]));
      if f.Fine? {
        ChunksDoNotMatter(f.state, chunks[1..]);
      }
    }
  }

  // Replies taken from the queue by the client.
  datatype Op = Chunk(data: string) | Pop

  function Prepend(q: seq<Reply>, f: Fed): Fed {
    match f
    case Fine(st) => Fine(st.(replies := q + st.replies))
    case Failed(rs) => Failed(q + rs)
  }

  lemma {:induction false} DrainAppends(st: Stream, q: seq<Reply>)
    ensures Drain(st.(replies := q + st.replies)) == Prepend(q, Drain(st))
    decreases |st.buffer|, st.builder.Some?
  {
    if st.buffer != "" {
      match if st.builder.Some? then Consume(st.builder.value, st.buffer) else Start(st.buffer)
      case Bad =>
      case More(_, _) =>
      case Ready(r, rest) =>
        DrainAppends(Stream(rest, None, st.replies + [r]), q);
        assert q + st.replies + [r] == q + (st.replies + [r]);
    }
  }

  // A run in which chunks arrive and available replies are taken, in any order.
  function Run(st: Stream, taken: seq<Reply>, ops: seq<Op>): (seq<Reply>, Fed)
    decreases |ops|
  {
    if ops == [] then (taken, Fine(st)) else
    match ops[0]
    case Pop =>
      if st.replies == [] then Run(st, taken, ops[1..])
      else Run(st.(replies := st.replies[1..]), taken + [st.replies[0]], ops[1..])
    case Chunk(data) =>
      match Feed(st, data)
      case Failed(rs) => (taken, Failed(rs))
      case Fine(st') => Run(st', taken, ops[1..])
  }

  function Received(ops: seq<Op>): string {
    if ops == [] then ""
    else (if ops[0].Chunk? then ops[0].data else "") + Received(ops[1..])
  }

  /** Taking replies early neither loses, repeats nor reorders any, and leaves the parse alone. */
  lemma {:induction false} TakingDoesNotMatter(st: Stream, taken: seq<Reply>, ops: seq<Op>)
    requires Settled(st)
    ensures var (got, f) := Run(st, taken, ops);
            Prepend(got, f) == Prepend(taken, Feed(st, Received(ops)))
    decreases |ops|
  {
    if ops == [] {
      assert st.buffer + "" == st.buffer;
    } else {
      match ops[0]
      case Pop => TakeOne(st, taken, ops);
      case Chunk(data) =>
        FeedSettles(st, data);
        FeedSplit(st, data, Received(ops[1..]));
        if Feed(st, data).Fine? {
          TakingDoesNotMatter(Feed(st, data).state, taken, ops[1..]);
        }
    }
  }

  lemma {:induction false} TakeOne(st: Stream, taken: seq<Reply>, ops: seq<Op>)
    requires Settled(st) && ops != [] && ops[0].Pop?
    ensures var (got, f) := Run(st, taken, ops);
            Prepend(got, f) == Prepend(taken, Feed(st, Received(ops)))
    decreases |ops|, 0
  {
    var rest := Received(ops[1..]);
    assert Received(ops) == rest;
    if st.replies == [] {
      TakingDoesNotMatter(st, taken, ops[1..]);
    } else {
      var st', first := st.(replies := st.replies[1..]), [st.replies[0]];
      assert first + st'.replies == st.replies;
      DrainAppends(st', first);
      assert Settled(st');
      TakingDoesNotMatter(st', taken + first, ops[1..]);
      DrainAppends(st'.(buffer := st.buffer + rest), first);
      PrependTwice(taken, first, Feed(st', rest));
    }
  }

  lemma PrependTwice(q: seq<Reply>, q': seq<Reply>, f: Fed)
    ensures Prepend(q, Prepend(q', f)) == Prepend(q + q', f)
  {
    assert q + (q' + Replies(f)) == q + q' + Replies(f);
  }

  lemma DrainOne(s: string, q: seq<Reply>, r: Reply, rest: string)
    requires s != "" && Start(s) == Ready(r, rest)
    ensures Drain(Stream(s, None, q)) == Drain(Stream(rest, None, q + [r]))
  {
  }

  lemma NoForms(s: string)
    requires DenotesAll(s, [])
    ensures s == ""
  {
  }

  /** The text of a list of replies is taken whole, and parsing goes on behind it. */
  lemma {:induction false} DrainForms(s: string, rs: seq<Reply>, q: seq<Reply>, t: string)
    requires DenotesAll(s, rs)
    ensures Drain(Stream(s + t, None, q)) == Drain(Stream(t, None, q + rs))
    decreases |rs|
  {
    hide *;
    if rs == [] {
      NoForms(s);
      assert s + t == t && q + rs == q;
    } else {
      var k := FirstForm(s, rs);
      Complete(s[..k], rs[0], s[k..] + t);
      assert s[..k] + (s[k..] + t) == s + t;
      DrainOne(s + t, q, rs[0], s[k..] + t);
      DrainForms(s[k..], rs[1..], q + [rs[0]], t);
      assert q + [rs[0]] + rs[1..] == q + rs;
    }
  }

  // The part of s that a stream has turned into replies, when it stopped with f.
  ghost predicate Explains(s: string, k: nat, q: seq<Reply>, f: Fed) {
    && k <= |s|
    && q <= Replies(f)
    && DenotesAll(s[..k], Replies(f)[|q|..])
    && match f
       case Failed(_) => k < |s| && Start(s[k..]).Bad?
       case Fine(st) =>
         (k == |s| && st.buffer == "" && st.builder == None)
         || (k < |s| && st.builder.Some? && Start(s[k..]) == More(st.builder.value, st.buffer))
  }

  lemma {:induction false} DrainExplained(s: string, q: seq<Reply>) returns (k: nat)
    ensures Explains(s, k, q, Drain(Stream(s, None, q)))
    decreases |s|
  {
    var f := Drain(Stream(s, None, q));
    if s == "" {
      k := 0;
    } else {
      hide Denotes, Consume, Start;
      match Start(s)
      case Bad =>
        k := 0;
        assert s[0..] == s;
      case More(_, _) =>
        k := 0;
        assert s[0..] == s;
      case Ready(r, rest) =>
        k := ExplainNext(s, q, r, rest);
    }
  }

  lemma {:induction false} ExplainNext(s: string, q: seq<Reply>, r: Reply, rest: string) returns (k: nat)
    requires s != "" && Start(s) == Ready(r, rest)
    ensures Explains(s, k, q, Drain(Stream(s, None, q)))
    decreases |s|, 0
  {
    hide Denotes, DenotesAll, Consume, Start;
    Sound(s);
    var j := |s| - |rest|;
    var k' := DrainExplained(rest, q + [r]);
    k := j + k';
    var all := Replies(Drain(Stream(s, None, q)));
    assert q <= q + [r] <= all;
    assert all[|q|..] == [r] + all[|q| + 1..];
    assert s[k..] == rest[k'..];
    assert s[..k][..j] == Used(s, rest) && s[..k][j..] == rest[..k'];
    FormCons(s[..k], j, r, all[|q| + 1..]);
  }

  lemma FormCons(u: string, j: nat, r: Reply, tail: seq<Reply>)
    requires j <= |u| && Denotes(u[..j], r) && DenotesAll(u[j..], tail)
    ensures DenotesAll(u, [r] + tail)
  {
    assert ([r] + tail)[1..] == tail;
  }

  /**
   The replies available after any bytes are denoted by a prefix of them, and
   every list denoted by a prefix is a prefix of those replies.
   */
  lemma LongestPrefix(s: string)
    ensures var f := Feed(INITIAL, s);
            && (exists k :: 0 <= k <= |s| && DenotesAll(s[..k], Replies(f)))
            && forall k, rs :: 0 <= k <= |s| && DenotesAll(s[..k], rs) ==> rs <= Replies(f)
  {
    var f := Feed(INITIAL, s);
    assert "" + s == s;
    var k := DrainExplained(s, []);
    assert Replies(f)[0..] == Replies(f);
    hide Drain, Denotes, DenotesAll;
    forall k, rs | 0 <= k <= |s| && DenotesAll(s[..k], rs) ensures rs <= Replies(f) {
      PrefixForms(s, k, rs);
    }
  }

  lemma PrefixForms(s: string, k: nat, rs: seq<Reply>)
    requires k <= |s| && DenotesAll(s[..k], rs)
    ensures rs <= Replies(Feed(INITIAL, s))
  {
    hide Drain, Denotes, DenotesAll;
    DrainForms(s[..k], rs, [], s[k..]);
    assert s[..k] + s[k..] == s && [] + rs == rs && "" + s == s;
    DrainAppends(Stream(s[k..], None, []), rs);
    assert rs + [] == rs;
  }

  /** The stream is idle holding exactly rs if and only if the bytes are the text of rs. */
  lemma AcceptsExactly(s: string, rs: seq<Reply>)
    ensures Feed(INITIAL, s) == Fine(Stream("", None, rs)) <==> DenotesAll(s, rs)
  {
    assert "" + s == s;
    if Feed(INITIAL, s) == Fine(Stream("", None, rs)) {
      var k := DrainExplained(s, []);
      assert s[..|s|] == s && rs[0..] == rs;
    }
    if DenotesAll(s, rs) {
      DrainForms(s, rs, [], "");
      assert s + "" == s && [] + rs == rs;
    }
  }

  /** Encoded replies cut into any chunks come out as those replies exactly when all of them fit. */
  lemma StreamRoundTrip(rs: seq<Reply>, chunks: seq<string>)
    requires Join(chunks) == EncodeAll(rs)
    ensures FeedAll(INITIAL, chunks) == Fine(Stream("", None, rs)) <==> FitAll(rs)
  {
    ChunksDoNotMatter(INITIAL, chunks);
    AcceptsExactly(EncodeAll(rs), rs);
    if FitAll(rs) {
      EncodedDenoteAll(rs);
    }
    if DenotesAll(EncodeAll(rs), rs) {
      DenotedFitAll(EncodeAll(rs), rs);
    }
  }
}
