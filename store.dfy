/**
 * The watermark store: a collection "chats" of documents keyed by chat id,
 * each holding a "publishedAt" mapping from feed URL to a timestamp.
 *
 * A document is modelled by its "publishedAt" mapping; a document without
 * that field reads like one whose mapping is empty. The backend's answers
 * reduce to found / not found / failed; whether a call fails for a reason
 * other than "not found" is a parameter.
 */
module Store {
  import opened Wrappers
  import opened Feed

  /** A value stored under a feed URL: a timestamp, or anything of another type. */
  datatype Value = TimeValue(t: int) | OtherValue

  /** The "publishedAt" mapping of one chat document: feed URL to value. */
  type Document = map<string, Value>

  /** The "chats" collection: chat id to document. */
  type Chats = map<string, Document>

  datatype StoreError = BackendError

  /** What a document read returns. */
  datatype Snapshot = Found(doc: Document) | NotFound | Failed

  /** A read of the chat's document that reaches the backend. */
  function Lookup(chats: Chats, chat: string): Snapshot
  {
    if chat in chats then Found(chats[chat]) else NotFound
  }

  /**
   * The watermark for feed `url`, given the snapshot of its chat document:
   * the stored time when present and a timestamp, the zero time when the
   * document, the path or a value of the right type is missing; an error
   * only when the read itself failed.
   */
  function ReadPublishedAt(g: Snapshot, url: string): (r: Result<int, StoreError>)
    ensures r.Failure? <==> g.Failed?
    ensures g.Found? && url in g.doc && g.doc[url].TimeValue? ==> r == Success(g.doc[url].t)
    ensures g.NotFound? ==> r == Success(ZeroTime)
    ensures g.Found? && url !in g.doc ==> r == Success(ZeroTime)
    ensures g.Found? && url in g.doc && !g.doc[url].TimeValue? ==> r == Success(ZeroTime)
  {
    match g
    case NotFound => Success(ZeroTime)
    case Failed => Failure(BackendError)
    case Found(doc) =>
      if url !in doc then Success(ZeroTime)       // no data at path publishedAt.url
      else match doc[url]
        case TimeValue(t) => Success(t)
        case OtherValue => Success(ZeroTime)      // not a timestamp
  }

  /**
   * Set chats[chat][url] to `t`: other feed URLs of the chat and other chats
   * keep their values, and a missing chat document is created holding just
   * this entry.
   */
  function Upsert(chats: Chats, chat: string, url: string, t: int): (r: Chats)
    ensures r.Keys == chats.Keys + {chat}
    ensures url in r[chat] && r[chat][url] == TimeValue(t)
    ensures chat !in chats ==> r[chat] == map[url := TimeValue(t)]
    ensures chat in chats ==> r[chat].Keys == chats[chat].Keys + {url}
    ensures chat in chats ==> forall u :: u in chats[chat] && u != url ==> r[chat][u] == chats[chat][u]
    ensures forall c :: c in chats && c != chat ==> r[c] == chats[c]
  {
    var doc := if chat in chats then chats[chat] else map[];
    chats[chat := doc[url := TimeValue(t)]]
  }

  /** After an upsert the entry reads back as `t` and every other entry reads as before. */
  lemma ReadAfterUpsert(chats: Chats, chat: string, url: string, t: int, c: string, u: string)
    ensures ReadPublishedAt(Lookup(Upsert(chats, chat, url, t), c), u)
         == if c == chat && u == url then Success(t) else ReadPublishedAt(Lookup(chats, c), u)
  {
  }

  /** Every stored timestamp is at or after the zero time. */
  predicate NonNegative(chats: Chats)
  {
    forall c, u :: c in chats && u in chats[c] && chats[c][u].TimeValue? ==> chats[c][u].t >= ZeroTime
  }

  /** On a store that holds no time before the zero time, reads return no time before it either. */
  lemma NonNegativeRead(chats: Chats, chat: string, url: string)
    requires NonNegative(chats)
    ensures ReadPublishedAt(Lookup(chats, chat), url).value >= ZeroTime
  {
  }

  /** The watermark store. */
  class WatermarkStore {
    var chats: Chats

    constructor (initial: Chats)
      ensures chats == initial
    {
      chats := initial;
    }

    /** Get of the chat's document; `fault` is a backend error other than not found. */
    function Get(chat: string, fault: bool): Snapshot
      reads this
    {
      if fault then Failed else Lookup(chats, chat)
    }

    /**
     * Write the watermark of (chat, url): update the nested field, and create
     * the document when the update finds none. `updateFault` and `setFault`
     * are backend errors, other than not found, of the update and the create.
     */
    method WritePublishedAt(chat: string, url: string, t: int, updateFault: bool, setFault: bool)
      returns (err: Option<StoreError>)
      modifies this
      ensures err.Some? <==> updateFault || (chat !in old(chats) && setFault)
      ensures chats == if err.Some? then old(chats) else Upsert(old(chats), chat, url, t)
      ensures err.None? ==> ReadPublishedAt(Get(chat, false), url) == Success(t)
    {
      if updateFault {
        return Some(BackendError);
      }
      if chat in chats {
        chats := chats[chat := chats[chat][url := TimeValue(t)]];
        return None;
      }
      // the update found no document: create it with just this entry
      if setFault {
        return Some(BackendError);
      }
      chats := chats[chat := map[url := TimeValue(t)]];
      return None;
    }
  }
}
