/** The approval preview of a request body and the stream that is put back together behind it
    (the hold in gateway/forward.rs). A `char` stands for one byte. */
module BodyPreview {
  import opened Wrappers

  const PREVIEW_BYTES: nat := 4096

  /** What a body stream yields: chunks of any size, the empty one included, or a failure. */
  datatype Item = Data(bytes: string) | Failure(message: string)

  class BodyStream {
    var items: seq<Item>

    constructor (items: seq<Item>)
      ensures this.items == items
    {
      this.items := items;
    }

    method Next() returns (item: Option<Item>)
      modifies this
      ensures old(items) == [] ==> item == None && items == []
      ensures old(items) != [] ==> item == Some(old(items)[0]) && items == old(items)[1..]
    {
      if items == [] {
        return None;
      }
      item, items := Some(items[0]), items[1..];
    }
  }

  /** The bytes delivered before the stream ends or fails. */
  function Bytes(items: seq<Item>): string {
    if items == [] || items[0].Failure? then "" else items[0].bytes + Bytes(items[1..])
  }

  function FirstFailure(items: seq<Item>): Option<string> {
    if items == [] then None
    else if items[0].Failure? then Some(items[0].message)
    else FirstFailure(items[1..])
  }

  function Prefix(bytes: string): string {
    if |bytes| <= PREVIEW_BYTES then bytes else bytes[..PREVIEW_BYTES]
  }

  /** The stream fails before it has delivered enough for the preview. */
  predicate FailsEarly(items: seq<Item>) {
    FirstFailure(items).Some? && |Bytes(items)| < PREVIEW_BYTES
  }

  lemma ConsConcat(front: seq<Item>, back: seq<Item>)
    requires front != []
    ensures (front + back)[0] == front[0] && (front + back)[1..] == front[1..] + back
  {
  }

  lemma Regroup(a: string, b: string, c: string)
    ensures a + (b + c) == a + b + c
  {
  }

  lemma {:induction false} BytesConcat(front: seq<Item>, back: seq<Item>)
    requires FirstFailure(front).None?
    ensures Bytes(front + back) == Bytes(front) + Bytes(back)
    ensures FirstFailure(front + back) == FirstFailure(back)
  {
    if front == [] {
      assert front + back == back;
    } else {
      BytesConcat(front[1..], back);
      ConsConcat(front, back);
      Regroup(front[0].bytes, Bytes(front[1..]), Bytes(back));
    }
  }

  lemma BytesSnoc(front: seq<Item>, item: Item)
    requires FirstFailure(front).None? && item.Data?
    ensures Bytes(front + [item]) == Bytes(front) + item.bytes
    ensures FirstFailure(front + [item]).None?
  {
    BytesConcat(front, [item]);
    assert [item][1..] == [];
  }

  /** How much of `chunk` still fits behind `buf`. */
  function Room(buf: string, chunk: string): nat
    requires |buf| < PREVIEW_BYTES
    ensures Room(buf, chunk) <= |chunk|
  {
    if PREVIEW_BYTES - |buf| <= |chunk| then PREVIEW_BYTES - |buf| else |chunk|
  }

  /** Once a chunk is taken as far as it fits, the prefix of everything is unchanged. */
  lemma PreviewStep(buf: string, chunk: string, rest: string)
    requires |buf| < PREVIEW_BYTES
    ensures Prefix(buf + (chunk + rest)) == Prefix(buf + chunk[..Room(buf, chunk)] + rest)
  {
    assert buf + (chunk + rest) == buf + chunk + rest;
    var longer := buf + chunk[..Room(buf, chunk)];
    PrefixConcat(buf, chunk);
    PrefixConcat(buf + chunk, rest);
    if Room(buf, chunk) == |chunk| {
      assert longer == buf + chunk;
    } else {
      PrefixConcat(longer, rest);
      assert Prefix(longer) == longer;
    }
  }

  /** What more bytes do to a prefix: fill the room that is left in it. */
  lemma PrefixConcat(front: string, back: string)
    ensures |front| >= PREVIEW_BYTES ==> Prefix(front + back) == Prefix(front)
    ensures |front| < PREVIEW_BYTES ==> Prefix(front + back) == front + back[..Room(front, back)]
  {
    if |front| >= PREVIEW_BYTES {
      assert (front + back)[..PREVIEW_BYTES] == front[..PREVIEW_BYTES];
      if |front| == PREVIEW_BYTES {
        assert front[..PREVIEW_BYTES] == front;
      }
    } else if |front + back| > PREVIEW_BYTES {
      assert (front + back)[..PREVIEW_BYTES] == front + back[..PREVIEW_BYTES - |front|];
    } else if |front + back| == PREVIEW_BYTES {
      assert back[..PREVIEW_BYTES - |front|] == back;
    } else {
      assert back[..|back|] == back;
    }
  }

  /** The preview is decided once it is full or the stream has ended. */
  lemma EnoughPeeked(peeked: seq<Item>, rest: seq<Item>)
    requires FirstFailure(peeked).None? && (|Bytes(peeked)| >= PREVIEW_BYTES || rest == [])
    ensures !FailsEarly(peeked + rest) && (peeked == [] <==> peeked + rest == [])
    ensures Prefix(Bytes(peeked + rest)) == Prefix(Bytes(peeked))
  {
    BytesConcat(peeked, rest);
    PrefixConcat(Bytes(peeked), Bytes(rest));
    assert rest == [] ==> peeked + rest == peeked;
  }

  lemma FailureAhead(peeked: seq<Item>, rest: seq<Item>)
    requires FirstFailure(peeked).None? && |Bytes(peeked)| < PREVIEW_BYTES
    ensures rest != [] && rest[0].Failure? ==>
              FailsEarly(peeked + rest) && FirstFailure(peeked + rest) == Some(rest[0].message)
  {
    BytesConcat(peeked, rest);
  }

  /** Peeks at the stream until the preview is full or the stream ends, then chains what was
      peeked in front of the rest. */
  method PeekAndReassemble(stream: BodyStream)
      returns (r: Result<(Option<string>, seq<Item>), string>)
    modifies stream
    ensures r.Err? <==> old(FailsEarly(stream.items))
    ensures r.Err? ==> Some(r.error) == old(FirstFailure(stream.items))
    ensures r.Ok? ==> r.value.1 == old(stream.items)
    ensures r.Ok? ==>
              r.value.0 == if old(stream.items) == [] then None else Some(Prefix(Bytes(old(stream.items))))
    // Nothing more is read than the preview needs.
    ensures |stream.items| <= old(|stream.items|)
    ensures var read := old(|stream.items|) - |stream.items|;
            && stream.items == old(stream.items)[read..]
            && (read > 0 ==> |Bytes(old(stream.items)[..read - 1])| < PREVIEW_BYTES)
  {
    var peeked: seq<Item> := [];
    var peekedLen := 0;
    ghost var all := stream.items;
    while peekedLen < PREVIEW_BYTES
      invariant |peeked| <= |all| && peeked == all[..|peeked|] && stream.items == all[|peeked|..]
      invariant FirstFailure(peeked).None? && peekedLen == |Bytes(peeked)|
      invariant |peeked| > 0 ==> |Bytes(all[..|peeked| - 1])| < PREVIEW_BYTES
      decreases |stream.items|
    {
      assert all == peeked + stream.items;
      FailureAhead(peeked, stream.items);
      var item := stream.Next();
      match item {
        case Some(Data(data)) =>
          BytesSnoc(peeked, Data(data));
          peekedLen := peekedLen + |data|;
          peeked := peeked + [Data(data)];
        case Some(Failure(message)) =>
          return Err(message);
        case None =>
          break;
      }
    }
    assert all == peeked + stream.items;
    EnoughPeeked(peeked, stream.items);
    var preview := PreviewOf(peeked);
    r := Ok((preview, peeked + stream.items));
  }

  method PreviewOf(peeked: seq<Item>) returns (preview: Option<string>)
    requires FirstFailure(peeked).None?
    ensures preview == if peeked == [] then None else Some(Prefix(Bytes(peeked)))
  {
    if peeked == [] {
      return None;
    }
    var buf := "";
    var i := 0;
    assert peeked[0..] == peeked;
    while i < |peeked|
      invariant 0 <= i <= |peeked|
      invariant FirstFailure(peeked[i..]).None?
      invariant |buf| < PREVIEW_BYTES && Prefix(buf + Bytes(peeked[i..])) == Prefix(Bytes(peeked))
    {
      var chunk := peeked[i].bytes;
      assert peeked[i..][1..] == peeked[i + 1..];
      PreviewStep(buf, chunk, Bytes(peeked[i + 1..]));
      buf := buf + chunk[..Room(buf, chunk)];
      i := i + 1;
      if |buf| >= PREVIEW_BYTES {
        PrefixConcat(buf, Bytes(peeked[i..]));
        assert Prefix(buf) == buf;
        return Some(buf);
      }
    }
    assert buf + Bytes(peeked[i..]) == buf;
    return Some(buf);
  }

  /** The preview when the whole body is already buffered for the policy conditions. */
  function BufferPreview(buffer: string): Option<string> {
    var previewLen := if |buffer| <= PREVIEW_BYTES then |buffer| else PREVIEW_BYTES;
    if previewLen > 0 then Some(buffer[..previewLen]) else None
  }

  /** The preview the peeking branch gives for a stream that does not fail early. */
  function StreamPreview(items: seq<Item>): Option<string> {
    if items == [] then None else Some(Prefix(Bytes(items)))
  }

  /** The two branches show the approver the same, except for an empty body in empty chunks. */
  lemma BranchesAgreeIff(items: seq<Item>)
    requires FirstFailure(items).None?
    ensures StreamPreview(items) == BufferPreview(Bytes(items)) <==> (items == [] || Bytes(items) != "")
  {
    var bytes := Bytes(items);
    if |bytes| <= PREVIEW_BYTES {
      assert bytes[..|bytes|] == bytes;
    }
  }
}
