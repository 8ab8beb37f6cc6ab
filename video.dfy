/**
 * The receive-and-forward loop of the video channel (`start_video`): chunks
 * read from the video stream are written verbatim to the player's input
 * until the run-flag is seen cleared after a read or the peer closes the
 * stream (an empty chunk), and the running byte count is reported.
 */
module Video {
  newtype byte = x: int | 0 <= x < 256

  /** One receive of up to 1024 bytes: the chunk returned and the run-flag as checked right after it. */
  datatype Read = Read(chunk: seq<byte>, running: bool)

  /** Why the loop stopped: flag cleared, peer closed the stream, or still receiving. */
  datatype RelayEnd = FlagCleared | PeerClosed | StillReceiving

  /** The index of the first read that ends the loop, or the number of reads. */
  function StopIndex(stream: seq<Read>): (k: nat)
    ensures k <= |stream|
    ensures forall i :: 0 <= i < k ==> stream[i].running && stream[i].chunk != []
    ensures k < |stream| ==> !stream[k].running || stream[k].chunk == []
    decreases |stream|
  {
    if |stream| == 0 || !stream[0].running || stream[0].chunk == [] then 0
    else 1 + StopIndex(stream[1..])
  }

  /** The concatenation of the chunks of the given reads. */
  function Received(stream: seq<Read>): (bytes: seq<byte>)
    ensures forall i :: 0 <= i < |stream| ==> |stream[i].chunk| <= |bytes|
    decreases |stream|
  {
    if |stream| == 0 then [] else Received(stream[..|stream| - 1]) + stream[|stream| - 1].chunk
  }

  /**
   * The relay loop. `written` is what reaches the player's input, `dataRecv`
   * the final byte count and `reports` the count shown after each write.
   */
  method Relay(stream: seq<Read>) returns (written: seq<byte>, dataRecv: nat, reports: seq<nat>, end: RelayEnd)
    ensures written == Received(stream[..StopIndex(stream)])
    ensures dataRecv == |written|
    ensures |reports| == StopIndex(stream)
    ensures forall i :: 0 <= i < |reports| ==> reports[i] == |Received(stream[..i + 1])|
    ensures end == if StopIndex(stream) == |stream| then StillReceiving
                   else if !stream[StopIndex(stream)].running then FlagCleared
                   else PeerClosed
  {
    written, dataRecv, reports := [], 0, [];
    var i := 0;
    while i < |stream|
      invariant i <= StopIndex(stream)
      invariant written == Received(stream[..i])
      invariant dataRecv == |written|
      invariant |reports| == i
      invariant forall j :: 0 <= j < i ==> reports[j] == |Received(stream[..j + 1])|
      decreases |stream| - i
    {
      var data := stream[i].chunk;
      if !stream[i].running {
        end := FlagCleared;
        return;
      }
      dataRecv := dataRecv + |data|;
      if data == [] {
        end := PeerClosed;
        return;
      }
      assert stream[..i + 1][..i] == stream[..i];
      written := written + data;
      reports := reports + [dataRecv];
      i := i + 1;
    }
    assert stream[..|stream|] == stream;
    end := StillReceiving;
  }

  /** The bytes of a prefix of the stream are a prefix of the bytes of all of them. */
  lemma {:induction false} ReceivedPrefix(stream: seq<Read>, k: nat)
    requires k <= |stream|
    ensures Received(stream[..k]) <= Received(stream)
    ensures |Received(stream[..k])| <= |Received(stream)|
    decreases |stream| - k
  {
    if k < |stream| {
      var n := |stream| - 1;
      assert stream[..n][..k] == stream[..k];
      ReceivedPrefix(stream[..n], k);
    } else {
      assert stream[..k] == stream;
    }
  }

  /** Once a read ends the loop, nothing received later changes where it stops. */
  lemma {:induction false} StopIndexIgnoresLater(stream: seq<Read>, later: seq<Read>)
    requires StopIndex(stream) < |stream|
    ensures StopIndex(stream + later) == StopIndex(stream)
    decreases |stream|
  {
    if stream[0].running && stream[0].chunk != [] {
      assert (stream + later)[1..] == stream[1..] + later;
      StopIndexIgnoresLater(stream[1..], later);
    }
  }

  /**
   * The stopping read and everything after it are never written: the bytes
   * relayed from `stream + later` are those relayed from `stream` once `stream`
   * already holds the stopping read.
   */
  lemma RelayIgnoresLater(stream: seq<Read>, later: seq<Read>)
    requires StopIndex(stream) < |stream|
    ensures Received((stream + later)[..StopIndex(stream + later)]) == Received(stream[..StopIndex(stream)])
  {
    StopIndexIgnoresLater(stream, later);
    assert (stream + later)[..StopIndex(stream)] == stream[..StopIndex(stream)];
  }

  /** Every relayed chunk is non-empty, so the reported counts strictly increase. */
  lemma {:induction false} ReportsIncrease(stream: seq<Read>, i: nat, j: nat)
    requires i < j < StopIndex(stream)
    ensures |Received(stream[..i + 1])| < |Received(stream[..j + 1])|
    decreases j - i
  {
    var r := stream[..j + 1];
    assert r[..j] == stream[..j];
    assert r[j] == stream[j];
    if i + 1 < j {
      ReportsIncrease(stream, i, j - 1);
    } else {
      assert stream[..j] == stream[..i + 1];
    }
  }
}
