/** A chat stream end to end: the frames the handler writes, through the framing, to both clients. */
module Chat {
  import opened Basics
  import opened Queue
  import opened StreamHub
  import Sse

  const KEEPALIVE := "keepalive"

  /** wire gives the event type and the JSON body of a frame. */
  function PieceOf(f: Frame, wire: Frame -> Sse.Event): Sse.Piece {
    if f == Comment then Sse.CommentPiece(KEEPALIVE) else Sse.EventPiece(wire(f))
  }

  function Pieces(frames: seq<Frame>, wire: Frame -> Sse.Event): seq<Sse.Piece> {
    if frames == [] then [] else Pieces(frames[..|frames| - 1], wire) + [PieceOf(frames[|frames| - 1], wire)]
  }

  function Wires(frames: seq<Frame>, wire: Frame -> Sse.Event): seq<Sse.Event> {
    if frames == [] then [] else Wires(frames[..|frames| - 1], wire) + [wire(frames[|frames| - 1])]
  }

  /** Types have no space at their ends and bodies are on one line. */
  ghost predicate Wired(wire: Frame -> Sse.Event) {
    forall f :: f != Comment ==> Sse.Writable(Sse.EventPiece(wire(f)))
  }

  lemma {:induction false} EventsPushed(pieces: seq<Sse.Piece>, p: Sse.Piece)
    ensures Sse.EventsOf(pieces + [p]) == Sse.EventsOf(pieces) + if p.EventPiece? then [p.e] else []
  {
    if pieces == [] {
      assert pieces + [p] == [p];
    } else {
      assert (pieces + [p])[1..] == pieces[1..] + [p];
      EventsPushed(pieces[1..], p);
    }
  }

  lemma {:induction false} EventsOfPieces(frames: seq<Frame>, wire: Frame -> Sse.Event)
    ensures Sse.EventsOf(Pieces(frames, wire)) == Wires(Data(frames), wire)
  {
    if frames != [] {
      var n := |frames| - 1;
      EventsOfPieces(frames[..n], wire);
      EventsPushed(Pieces(frames[..n], wire), PieceOf(frames[n], wire));
      var before := Data(frames[..n]);
      var p, last := PieceOf(frames[n], wire), frames[n];
      assert Pieces(frames, wire) == Pieces(frames[..n], wire) + [p];
      if last == Comment {
        assert Data(frames) == before && p == Sse.CommentPiece(KEEPALIVE);
      } else {
        assert (before + [last])[..|before|] == before;
        assert Data(frames) == before + [last] && p == Sse.EventPiece(wire(last));
      }
    }
  }

  lemma {:induction false} PiecesAreWritable(frames: seq<Frame>, wire: Frame -> Sse.Event)
    requires Wired(wire) && Sse.OneLine(KEEPALIVE)
    ensures forall i :: 0 <= i < |Pieces(frames, wire)| ==> Sse.Writable(Pieces(frames, wire)[i])
  {
    if frames != [] {
      PiecesAreWritable(frames[..|frames| - 1], wire);
    }
  }

  /** Whatever frames are written, in whatever chunks they arrive: both clients read the events of the
      frames that are not keepalives, in order. */
  lemma {:induction false} FramesReadBack(frames: seq<Frame>, wire: Frame -> Sse.Event, chunks: seq<string>)
    requires Wired(wire) && Sse.Flatten(chunks) == Sse.EncodeAll(Pieces(frames, wire))
    ensures Sse.Parsed(Sse.Flatten(chunks)) == Sse.ReadAll(Sse.Flatten(chunks), 0) == Wires(Data(frames), wire)
  {
    PiecesAreWritable(frames, wire);
    EventsOfPieces(frames, wire);
    Sse.WebReadsBack(Pieces(frames, wire), chunks);
    Sse.CliReadsBack(Pieces(frames, wire));
  }

  lemma {:induction false} WiresOfPrefix(a: seq<Frame>, b: seq<Frame>, wire: Frame -> Sse.Event)
    requires a <= b
    ensures Wires(a, wire) <= Wires(b, wire)
  {
    if |a| < |b| {
      WiresOfPrefix(a, b[..|b| - 1], wire);
    } else {
      assert a == b;
    }
  }

  /** A stream of one request as both clients see it: they agree, and what they read is the accepted event,
      the replay and the live events in that order, up to where the stream ended. */
  method StreamChat(replay: seq<RuntimeEvent>, waits: seq<Wait>, budget: nat, wire: Frame -> Sse.Event)
    returns (text: string, ghost frames: seq<Frame>)
    requires Wired(wire)
    ensures Sse.Parsed(text) == Sse.ReadAll(text, 0) == Wires(Data(frames), wire)
    ensures Sse.Parsed(text) <= Wires([Accepted] + Frames(replay) + Arrivals(waits), wire)
    ensures frames != [] ==> NoTerminal(frames[..|frames| - 1])
  {
    var written := HandleChatStream(replay, waits, budget);
    frames, text := written, Sse.EncodeAll(Pieces(written, wire));
    assert Sse.Flatten([text]) == text;
    FramesReadBack(frames, wire, [text]);
    WiresOfPrefix(Data(frames), [Accepted] + Frames(replay) + Arrivals(waits), wire);
  }
}
