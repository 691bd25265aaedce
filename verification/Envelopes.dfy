/** Messages as they travel: metadata, destinations and content. */
module Envelopes {
  import opened Bytes

  datatype Metadata = Metadata(
    instanceId: UUID,
    sourceId: UUID,
    from: Address,
    routingName: seq<byte>,
    trace: bool)

  /** One piece of a large message, with enough of its header to put it together again. */
  datatype MessageChunk = MessageChunk(
    numberOfChunks: nat,
    chunkIndex: nat,
    offset: nat,
    unchunkedSize: nat,
    internalId: UUID,
    internalRoutingName: seq<byte>,
    internalInstanceId: UUID,
    internalOriginId: UUID,
    internalClassVersion: u32,
    payload: seq<byte>)

  /** Object contents are known by their serialized body; opaque ones never were anything else. */
  datatype Content =
    | Object(classId: UUID, version: u32, body: seq<byte>)
    | Opaque(opaqueId: UUID, opaqueVersion: u32, data: seq<byte>)
    | Chunk(chunk: MessageChunk)

  datatype Envelope = Envelope(meta: Metadata, to: seq<Address>, content: Content)
}
