/**
 The reply builder object: it buffers network data, drives one builder at a time
 and queues the replies, as module ReplyStream specifies.
 */
module ReplyBuilders {
  import opened Builders
  import opened Parsing
  import opened ReplyStream
  import opened Resp
  import opened Wrappers

  class ReplyBuilder {
    var buffer: string
    var builder: Handle
    var availableReplies: seq<Reply>
    ghost var Repr: set<object>

    ghost function Inner(): set<object>
      reads this
    {
      Repr - {this}
    }

    ghost predicate Valid()
      reads this, Repr
    {
      this in Repr && Unfinished(builder, Inner())
    }

    ghost function Now(): Stream
      requires Valid()
      reads this, Repr
    {
      Stream(buffer, Row(builder, Inner()), availableReplies)
    }

    constructor ()
      ensures Valid() && fresh(Repr) && Now() == INITIAL
    {
      buffer, builder, availableReplies := "", NoBuilder, [];
      new;
      Repr := {this};
    }

    // operator<<
    method Append(data: string) returns (ok: bool)
      requires Valid()
      modifies Repr
      ensures fresh(Repr - old(Repr)) && this in Repr
      ensures ok <==> Feed(old(Now()), data).Fine?
      ensures ok ==> Valid() && Now() == Feed(old(Now()), data).state
      ensures availableReplies == Replies(Feed(old(Now()), data))
    {
      buffer := buffer + data;
      ghost var target := Feed(old(Now()), data);
      var built := true;
      ok := true;
      while built
        invariant this in Repr && fresh(Repr - old(Repr))
        invariant ok ==> Valid()
        invariant ok && built ==> Drain(Now()) == target
        invariant ok && !built ==> target == Fine(Now())
        invariant !ok ==> !built && target == Failed(availableReplies)
        decreases built, if built then |buffer| else 0, builder != NoBuilder
      {
        ok, built := BuildReply();
      }
    }

    // The next reply, if the buffer completes one.
    method BuildReply() returns (ok: bool, built: bool)
      requires Valid()
      modifies Repr
      ensures fresh(Repr - old(Repr)) && this in Repr
      ensures ok ==> Valid() && Drain(old(Now())) == if built then Drain(Now()) else Fine(Now())
      ensures ok && built ==> |buffer| < |old(buffer)|
      ensures !ok ==> !built && Drain(old(Now())) == Failed(availableReplies)
    {
      ok, built := true, false;
      if buffer == "" { return; }
      if builder == NoBuilder {
        ghost var R;
        builder, R := CreateBuilder(buffer[0]);
        Repr := Repr + R;
        if builder == NoBuilder { return false, false; }
        OwnedGrows(builder, R, Inner());
        buffer := buffer[1..];
      }
      ok, built := PushBuffer();
    }

    method PushBuffer() returns (ok: bool, built: bool)
      requires Valid() && builder != NoBuilder
      modifies Repr
      ensures fresh(Repr - old(Repr)) && this in Repr
      ensures var o := Consume(old(Row(builder, Inner())).value, old(buffer));
              && (ok <==> !o.Bad?)
              && (ok ==> Valid() && built == o.Ready? && buffer == o.rest)
              && (!ok ==> !built && availableReplies == old(availableReplies))
              && (o.More? ==> availableReplies == old(availableReplies) && Row(builder, Inner()) == Some(o.builder))
              && (o.Ready? ==> availableReplies == old(availableReplies) + [o.reply] && builder == NoBuilder)
    {
      built := false;
      ghost var R;
      var rest;
      ok, rest, R := PushTo(builder, buffer, Inner());
      if !ok { return; }
      Repr := Repr + R;
      OwnedGrows(builder, R, Inner());
      buffer := rest;
      var reply;
      built, reply := ReplyOf(builder, R);
      if !built { return; }
      availableReplies, builder := availableReplies + [reply], NoBuilder;
    }

    predicate ReplyAvailable()
      reads this
    {
      availableReplies != []
    }

    method GetFront() returns (reply: Reply)
      requires ReplyAvailable()
      ensures reply == availableReplies[0]
    {
      reply := availableReplies[0];
    }

    method PopFront()
      requires Valid() && ReplyAvailable()
      modifies this`availableReplies
      ensures Valid() && Now() == old(Now()).(replies := old(availableReplies)[1..])
    {
      availableReplies := availableReplies[1..];
    }

    // Back to the initial state, also after refused bytes.
    method Reset()
      modifies this
      ensures Valid() && fresh(Repr - {this}) && Now() == INITIAL
    {
      buffer, builder, availableReplies := "", NoBuilder, [];
      Repr := {this};
    }
  }
}
