/** Packets, messages and journal rows of one dialogue. */
module Types {
  import opened Base

  type User = nat
  type Key = nat
  /** File name, MIME type, attachment kind and photo group, which no modelled code inspects. */
  type Meta = nat
  /** A path in the local file system. */
  type Path = nat
  /** A normalised topic name; the topic id is its (injective) digest, so the name stands for the id. */
  type Topic = string

  /** Identifiers are random UUIDs, or `"{transfer}:{index}"` for body chunks. */
  datatype Id = Uuid(n: nat) | ChunkOf(transfer: Id, index: nat)

  datatype Status = Sending | Sent | Delivered | Read | Failed

  datatype Attachment = Attachment(
    meta: Meta,
    size: nat,
    data: Bytes,
    transferId: Option<Id>,
    cachePath: Option<Path>,
    chunkCount: nat,
    bodyFrom: nat,
    bodyTo: nat,
    downloaded: bool,
    blob: Option<Id>)

  /** `Plain` stands for text, replies, photo groups and reactions, which the sync code treats alike. */
  datatype Content =
    | Plain(text: string)
    | Attach(file: Attachment)
    | FileHeader(transferId: Id, meta: Meta, totalSize: nat, chunks: nat)
    | FileChunk(transferId: Id, index: nat, total: nat, meta: Meta, totalSize: nat, data: Bytes)
    | ReadReceipt(upToSeq: nat)
    | Delete(targetId: Id)

  /** The open header inside the encrypted payload. */
  datatype Inner = Inner(id: Id, sender: User, content: Content, topic: Option<Topic>)

  /** Ideal encryption: a payload opens exactly under the key that sealed it, and noise never opens. */
  datatype Payload = Sealed(key: Key, inner: Inner) | Noise(bytes: Bytes)

  datatype Message = Message(
    id: Id,
    sender: User,
    content: Content,
    status: Status,
    serverSeq: Option<nat>,
    topic: Option<Topic>)

  datatype Outbound = Outbound(
    transferId: Id,
    headerSeq: nat,
    chunkCount: nat,
    chunkSizes: seq<nat>,
    cachePath: Path,
    meta: Meta,
    totalSize: nat,
    topic: Option<Topic>,
    attempts: nat)

  datatype ChunkRow = ChunkRow(sender: User, total: nat, meta: Meta, data: Bytes)

  /** How one resume round of a transfer ended. */
  datatype Round = SourceGone | MapFailed | Completed | PushFailed | GaveUp

  datatype Logged = Logged(transferId: Id, round: Round)
}
