/**
 * The messages a session pushes to its client (index.js lines 92-106 and
 * 117-119): the tagged triple `[type, null, payload]`. The watcher's stats
 * object and the raw object of a removal come from the watcher library and
 * stay opaque, as the type parameters `S` and `O`.
 */
module Envelopes {
  import opened Wrappers
  import opened Lock

  datatype Kind = Handshake | FsChange | FsAdd | FsUnlink

  /** The type tag as it appears on the wire. */
  function Tag(k: Kind): string
  {
    match k
    case Handshake => "HANDSHAKE"
    case FsChange => "FS_CHANGE"
    case FsAdd => "FS_ADD"
    case FsUnlink => "FS_UNLINK"
  }

  datatype Payload<S, O> =
    | Doc(stats: S)             // `stats.toDoc()` of the watcher's stats object
    | Raw(obj: O)               // the watcher's object, forwarded untouched
    | HandshakeInfo(path: WorkDir)  // `{ path: lastWorkingDir || false }`

  /** `[type, correlation, payload]`; the correlation slot holds `null` for every pushed message. */
  datatype Envelope<S, O> = Envelope(kind: Kind, correlation: Option<string>, payload: Payload<S, O>)

  /** The five events a session's watcher emits. */
  datatype WatcherEvent<S, O> =
    | Change(stats: S)
    | Add(stats: S)
    | Unlink(obj: O)
    | AddDir(stats: S)
    | UnlinkDir(obj: O)

  predicate IsRemoval<S, O>(e: WatcherEvent<S, O>)
  {
    e.Unlink? || e.UnlinkDir?
  }

  /** The envelope each watcher handler sends (lines 92-106). */
  function ToEnvelope<S, O>(e: WatcherEvent<S, O>): (r: Envelope<S, O>)
    ensures r.correlation == None && r.kind != Handshake
    ensures r.kind == FsUnlink <==> IsRemoval(e)
    ensures r.payload.Raw? <==> IsRemoval(e)
  {
    match e
    case Change(s) => Envelope(FsChange, None, Doc(s))
    case Add(s) => Envelope(FsAdd, None, Doc(s))
    case Unlink(o) => Envelope(FsUnlink, None, Raw(o))
    case AddDir(s) => Envelope(FsAdd, None, Doc(s))
    case UnlinkDir(o) => Envelope(FsUnlink, None, Raw(o))
  }

  /** `lastWorkingDir || false`: the handshake carries a non-empty path or `false`. */
  function HandshakePath(d: WorkDir): (p: WorkDir)
    ensures p == False || Truthy(p)
    ensures Truthy(d) ==> p == d
    ensures !Truthy(d) ==> p == False
  {
    if Truthy(d) then d else False
  }

  /** The handshake of lines 117-119. */
  function HandshakeEnvelope<S, O>(d: WorkDir): (r: Envelope<S, O>)
    ensures r.kind == Handshake && r.correlation == None
    ensures r.payload == HandshakeInfo(HandshakePath(d))
  {
    Envelope(Handshake, None, HandshakeInfo(HandshakePath(d)))
  }

  /** The file/directory distinction the wire drops: `addDir` reads as `add`, `unlinkDir` as `unlink`. */
  function Merged<S, O>(e: WatcherEvent<S, O>): WatcherEvent<S, O>
  {
    match e
    case AddDir(s) => Add(s)
    case UnlinkDir(o) => Unlink(o)
    case _ => e
  }

  /** How a client reads a pushed filesystem envelope back as an event. */
  function ReadEvent<S, O>(env: Envelope<S, O>): Option<WatcherEvent<S, O>>
  {
    match (env.kind, env.payload)
    case (FsChange, Doc(s)) => Some(Change(s))
    case (FsAdd, Doc(s)) => Some(Add(s))
    case (FsUnlink, Raw(o)) => Some(Unlink(o))
    case _ => None
  }

  /** Reading an envelope back gives the event, up to the file/directory distinction. */
  lemma EventRoundTrip<S, O>(e: WatcherEvent<S, O>)
    ensures ReadEvent(ToEnvelope(e)) == Some(Merged(e))
  {
  }

  /** An `add` of a document reads back as exactly that document. */
  lemma AddRoundTrip<S, O>(d: S)
    ensures ToEnvelope<S, O>(Add(d)).kind == FsAdd
    ensures ReadEvent(ToEnvelope<S, O>(Add(d))) == Some(Add(d))
  {
  }

  /** Every readable pushed envelope is the one some event produces. */
  lemma EnvelopeRoundTrip<S, O>(env: Envelope<S, O>)
    requires env.correlation == None && ReadEvent(env).Some?
    ensures ToEnvelope(ReadEvent(env).value) == env
  {
  }

  /** Two events give the same envelope exactly when they agree up to file/directory. */
  lemma SameEnvelope<S, O>(e1: WatcherEvent<S, O>, e2: WatcherEvent<S, O>)
    ensures ToEnvelope(e1) == ToEnvelope(e2) <==> Merged(e1) == Merged(e2)
  {
    if ToEnvelope(e1) == ToEnvelope(e2) {
      EventRoundTrip(e1);
      EventRoundTrip(e2);
    }
  }

  /** The wire tags are pairwise distinct. */
  lemma TagsDistinct(k1: Kind, k2: Kind)
    ensures Tag(k1) == Tag(k2) <==> k1 == k2
  {
    if k1 != k2 {
      assert Tag(k1)[|Tag(k1)| - 1] != Tag(k2)[|Tag(k2)| - 1] || |Tag(k1)| != |Tag(k2)| || Tag(k1)[3] != Tag(k2)[3];
    }
  }
}
