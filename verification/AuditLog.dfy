/** The hash-chained audit log of the platform store.

    Digests are constructors that carry their material, so equal digests have equal material.
 */
module AuditLog {
  import opened Options

  type StreamId = nat
  type Payload = nat
  type Detail = nat

  datatype PayloadHash = PayloadHash(payload: Payload)

  /** The identity of an event row.  `detail` stands for its aggregate, type, actor, schema,
      sensitivity, causation, correlation and recording time. */
  datatype Identity = Identity(stream: StreamId, sequence: int, detail: Detail, payloadHash: PayloadHash, previous: Option<RowHash>)

  datatype EventId = EventId(identity: Identity)

  datatype RowHash = RowHash(id: EventId, identity: Identity)

  /** A stored row; every column can hold anything. */
  datatype Row = Row(id: EventId, identity: Identity, payload: Payload)

  function HashOf(r: Row): RowHash {
    RowHash(r.id, r.identity)
  }

  function LastHash(rows: seq<Row>): Option<RowHash> {
    if rows == [] then None else Some(HashOf(rows[|rows| - 1]))
  }

  predicate RowOk(r: Row, sequence: int, previous: Option<RowHash>) {
    && r.identity.sequence == sequence
    && r.identity.previous == previous
    && r.identity.payloadHash == PayloadHash(r.payload)
    && r.id == EventId(r.identity)
  }

  /** Every row carries its position, the hash of its predecessor, the hash of its payload and its own id. */
  ghost predicate Verifies(rows: seq<Row>) {
    forall i | 0 <= i < |rows| :: RowOk(rows[i], i + 1, LastHash(rows[..i]))
  }

  /** The row `append_event` writes after the given ones. */
  function NewRow(rows: seq<Row>, stream: StreamId, detail: Detail, payload: Payload): Row {
    var sequence := if rows == [] then 1 else rows[|rows| - 1].identity.sequence + 1;
    var identity := Identity(stream, sequence, detail, PayloadHash(payload), LastHash(rows));
    Row(EventId(identity), identity, payload)
  }

  class AuditStore {
    var streams: map<StreamId, seq<Row>>

    constructor ()
      ensures streams == map[] && Intact()
    {
      streams := map[];
    }

    /** Every stream of the store verifies, and its rows name it. */
    ghost predicate Intact()
      reads this
    {
      forall s <- streams :: Verifies(streams[s]) && forall row <- streams[s] :: row.identity.stream == s
    }

    function Rows(stream: StreamId): seq<Row>
      reads this
    {
      if stream in streams then streams[stream] else []
    }

    /** `append_event`: one more row on its own stream, which still verifies; no other stream changes. */
    method AppendEvent(stream: StreamId, detail: Detail, payload: Payload) returns (row: Row)
      requires Intact()
      modifies this
      ensures Intact()
      ensures Rows(stream) == old(Rows(stream)) + [row]
      ensures
        var rows := old(Rows(stream));
        var previous := if rows == [] then None else Some(RowHash(rows[|rows| - 1].id, rows[|rows| - 1].identity));
        && row.payload == payload && row.id == EventId(row.identity)
        && row.identity == Identity(stream, |rows| + 1, detail, PayloadHash(payload), previous)
      ensures forall s | s != stream :: Rows(s) == old(Rows(s))
    {
      row := NewRow(Rows(stream), stream, detail, payload);
      AppendVerifies(Rows(stream), stream, detail, payload);
      NewRowIsNext(Rows(stream), stream, detail, payload);
      streams := streams[stream := Rows(stream) + [row]];
    }

    /** `verify_event_stream`. */
    method VerifyEventStream(stream: StreamId) returns (ok: bool)
      ensures ok <==> Verifies(Rows(stream))
      ensures ok <==> forall i | 0 <= i < |Rows(stream)| ::
        var row := Rows(stream)[i];
        && row.identity.sequence == i + 1 && row.id == EventId(row.identity)
        && row.identity.payloadHash == PayloadHash(row.payload)
        && row.identity.previous ==
             if i == 0 then None else Some(RowHash(Rows(stream)[i - 1].id, Rows(stream)[i - 1].identity))
    {
      var rows, previous, i := Rows(stream), None, 0;
      while i < |rows|
        invariant 0 <= i <= |rows|
        invariant previous == LastHash(rows[..i])
        invariant forall j | 0 <= j < i :: RowOk(rows[j], j + 1, LastHash(rows[..j]))
      {
        var row := rows[i];
        if row.identity.sequence != i + 1 || row.identity.previous != previous {
          return false;
        }
        if row.identity.payloadHash != PayloadHash(row.payload) || row.id != EventId(row.identity) {
          return false;
        }
        previous := Some(HashOf(row));
        i := i + 1;
      }
      ok := true;
    }
  }

  /** A stream that verifies still does after an append. */
  lemma AppendVerifies(rows: seq<Row>, stream: StreamId, detail: Detail, payload: Payload)
    requires Verifies(rows)
    ensures Verifies(rows + [NewRow(rows, stream, detail, payload)])
  {
    var more := rows + [NewRow(rows, stream, detail, payload)];
    if rows != [] {
      assert RowOk(rows[|rows| - 1], |rows|, LastHash(rows[..|rows| - 1]));
    }
    forall i | 0 <= i < |more|
      ensures RowOk(more[i], i + 1, LastHash(more[..i]))
    {
      assert more[..i] == rows[..i];
      if i == |rows| {
        assert more[..i] == rows;
      } else {
        assert RowOk(rows[i], i + 1, LastHash(rows[..i]));
      }
    }
  }

  /** The appended row has the next position. */
  lemma NewRowIsNext(rows: seq<Row>, stream: StreamId, detail: Detail, payload: Payload)
    requires Verifies(rows)
    ensures NewRow(rows, stream, detail, payload).identity.sequence == |rows| + 1
  {
    if rows != [] {
      assert RowOk(rows[|rows| - 1], |rows|, LastHash(rows[..|rows| - 1]));
    }
  }

  lemma VerifiesPrefix(rows: seq<Row>)
    requires rows != [] && Verifies(rows)
    ensures Verifies(rows[..|rows| - 1])
  {
    var init := rows[..|rows| - 1];
    forall i | 0 <= i < |init|
      ensures RowOk(init[i], i + 1, LastHash(init[..i]))
    {
      assert init[..i] == rows[..i];
    }
  }

  /** The hash of the last row pins the whole stream: two verifying streams whose last rows hash equally are the
      same row for row, payloads and length included. */
  lemma {:induction false} LastHashDeterminesStream(a: seq<Row>, b: seq<Row>)
    requires Verifies(a) && Verifies(b) && a != [] && b != []
    requires HashOf(a[|a| - 1]) == HashOf(b[|b| - 1])
    ensures a == b
    decreases |a|
  {
    var x, y := a[|a| - 1], b[|b| - 1];
    assert RowOk(x, |a|, LastHash(a[..|a| - 1])) && RowOk(y, |b|, LastHash(b[..|b| - 1]));
    assert x == y && |a| == |b|;
    VerifiesPrefix(a);
    VerifiesPrefix(b);
    if |a| > 1 {
      LastHashDeterminesStream(a[..|a| - 1], b[..|b| - 1]);
    }
    assert a == a[..|a| - 1] + [x] && b == b[..|b| - 1] + [y];
  }

  lemma {:induction false} VerifiesUpTo(rows: seq<Row>, n: nat)
    requires n <= |rows| && Verifies(rows)
    ensures Verifies(rows[..n])
    decreases |rows|
  {
    if n < |rows| {
      VerifiesPrefix(rows);
      VerifiesUpTo(rows[..|rows| - 1], n);
      assert rows[..|rows| - 1][..n] == rows[..n];
    } else {
      assert rows[..n] == rows;
    }
  }

  /** The hash of any row, kept elsewhere, pins the stream up to it: it occurs in another verifying stream only at the
      same position and after the same rows. */
  lemma AnyHashPinsPrefix(a: seq<Row>, i: nat, b: seq<Row>, j: nat)
    requires Verifies(a) && Verifies(b) && i < |a| && j < |b| && HashOf(a[i]) == HashOf(b[j])
    ensures i == j && a[..i + 1] == b[..j + 1]
  {
    VerifiesUpTo(a, i + 1);
    VerifiesUpTo(b, j + 1);
    LastHashDeterminesStream(a[..i + 1], b[..j + 1]);
  }
}
