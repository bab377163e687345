/**
 * `chat-storage.ts`: conversion between displayed messages and stored records, and the
 * shaping of the history file on save and load. The HTTP calls are outside the model: what a
 * load receives is a `LoadResponse`, and what a save sends is the `HistoryFile` it builds.
 * `Date.prototype.toISOString` and `new Date(string)` are the two functions of an `IsoCodec`.
 */
module ChatStorage {
  import opened Wrappers
  import opened ChatMessages

  const FILE_VERSION: string := "1.0"

  datatype ChatRecord = ChatRecord(sender: Sender, message: string, timestamp: string)

  datatype HistoryFile = HistoryFile(version: string, created: string, updated: string, messages: seq<ChatRecord>)

  /** Formatting an instant as ISO 8601 text, and parsing such text back. */
  datatype IsoCodec = IsoCodec(format: int -> string, parse: string -> int)
  {
    /** Parsing what was formatted gives the same instant. */
    ghost predicate ParsesFormatted() {
      forall t :: parse(format(t)) == t
    }
  }

  /** `messageToRecord`: sender and text as they are, the time as ISO text; files are dropped. */
  function MessageToRecord(m: ChatMessage, iso: IsoCodec): (r: ChatRecord)
    ensures r.sender == m.sender && r.message == m.message
    ensures r.timestamp == iso.format(m.timestamp)
  {
    ChatRecord(m.sender, m.message, iso.format(m.timestamp))
  }

  /** `recordToMessage`: sender and text as they are, the time parsed, and no files. */
  function RecordToMessage(r: ChatRecord, iso: IsoCodec): (m: ChatMessage)
    ensures m.sender == r.sender && m.message == r.message && m.files == []
    ensures m.timestamp == iso.parse(r.timestamp)
  {
    ChatMessage(r.sender, r.message, iso.parse(r.timestamp), [])
  }

  /** A message stored and read back is the same message without its files. */
  lemma MessageRecordRoundTrip(m: ChatMessage, iso: IsoCodec)
    requires iso.ParsesFormatted()
    ensures RecordToMessage(MessageToRecord(m, iso), iso) == m.(files := [])
  {
  }

  /** A record whose time text is canonical survives being read and stored again. */
  lemma RecordMessageRoundTrip(r: ChatRecord, iso: IsoCodec)
    requires iso.format(iso.parse(r.timestamp)) == r.timestamp
    ensures MessageToRecord(RecordToMessage(r, iso), iso) == r
  {
  }

  function MessagesToRecords(ms: seq<ChatMessage>, iso: IsoCodec): (rs: seq<ChatRecord>)
    ensures |rs| == |ms|
    ensures forall i :: 0 <= i < |ms| ==> rs[i] == MessageToRecord(ms[i], iso)
  {
    seq(|ms|, i requires 0 <= i < |ms| => MessageToRecord(ms[i], iso))
  }

  function RecordsToMessages(rs: seq<ChatRecord>, iso: IsoCodec): (ms: seq<ChatMessage>)
    ensures |ms| == |rs|
    ensures forall i :: 0 <= i < |rs| ==> ms[i] == RecordToMessage(rs[i], iso)
  {
    seq(|rs|, i requires 0 <= i < |rs| => RecordToMessage(rs[i], iso))
  }

  /**
   * The file `saveChatHistory` sends: version 1.0, created and updated both the current time,
   * and the messages as records in the same order.
   */
  function SaveChatHistory(ms: seq<ChatMessage>, now: int, iso: IsoCodec): (f: HistoryFile)
    ensures f.version == FILE_VERSION && f.created == f.updated == iso.format(now)
    ensures f.messages == MessagesToRecords(ms, iso)
  {
    var stamp := iso.format(now);
    HistoryFile(FILE_VERSION, stamp, stamp, MessagesToRecords(ms, iso))
  }

  /**
   * What a load receives: a failed request (network error, bad status, unreadable JSON), or a
   * JSON object that may carry an `error` key and whose `messages` may be missing or not a list.
   */
  datatype LoadResponse =
    | Failed
    | Payload(hasErrorKey: bool, messages: Option<seq<ChatRecord>>)

  /** `loadChatHistory`: `[]` on any failure or an `error` key, otherwise the records as messages. */
  function LoadChatHistory(resp: LoadResponse, iso: IsoCodec): (ms: seq<ChatMessage>)
    ensures resp.Failed? || (resp.Payload? && (resp.hasErrorKey || resp.messages.None?)) ==> ms == []
    ensures resp.Payload? && !resp.hasErrorKey && resp.messages.Some? ==>
      ms == RecordsToMessages(resp.messages.value, iso)
  {
    match resp
    case Failed => []
    case Payload(hasError, records) =>
      if hasError then []
      else match records
        case None => []
        case Some(rs) => RecordsToMessages(rs, iso)
  }

  /** Loading what was saved gives the saved messages back, each without files. */
  lemma SaveLoadRoundTrip(ms: seq<ChatMessage>, now: int, iso: IsoCodec)
    requires iso.ParsesFormatted()
    ensures var loaded := LoadChatHistory(Payload(false, Some(SaveChatHistory(ms, now, iso).messages)), iso);
      |loaded| == |ms| && forall i :: 0 <= i < |ms| ==> loaded[i] == ms[i].(files := [])
  {
    var loaded := LoadChatHistory(Payload(false, Some(SaveChatHistory(ms, now, iso).messages)), iso);
    forall i | 0 <= i < |ms| ensures loaded[i] == ms[i].(files := []) {
      MessageRecordRoundTrip(ms[i], iso);
    }
  }

  /**
   * `addMessageToHistory`: the loaded history followed by the new message, which is also what
   * gets saved.
   */
  function AddMessageToHistory(resp: LoadResponse, m: ChatMessage, now: int, iso: IsoCodec): (r: (seq<ChatMessage>, HistoryFile))
    ensures r.0 == LoadChatHistory(resp, iso) + [m]
    ensures r.1 == SaveChatHistory(r.0, now, iso)
    ensures |r.1.messages| == |LoadChatHistory(resp, iso)| + 1 && r.1.messages[|r.1.messages| - 1] == MessageToRecord(m, iso)
  {
    var updated := LoadChatHistory(resp, iso) + [m];
    (updated, SaveChatHistory(updated, now, iso))
  }
}
