/**
 * The contact server (server.js): an append-only message store kept as a
 * JSON document in `data/messages.json`. The file is the field `file` of
 * a `MessageStore`; `Date.now()` and `new Date().toISOString()` are
 * parameters of the request handler.
 */
module ContactServer {
  import opened Wrappers

  /** JSON values; numbers are the integers `Date.now()` produces. */
  datatype Json =
    | JNull
    | JBool(b: bool)
    | JNum(n: int)
    | JStr(s: string)
    | JArr(items: seq<Json>)
    | JObj(fields: map<string, Json>)

  /** The messages file: absent, unreadable or not JSON, or a parsed document. */
  datatype StoreFile = Missing | Unparsable | Parsed(doc: Json)

  /** An HTTP reply: status 200 with a JSON body, or status 500 with an error text. */
  datatype Reply = Ok200(body: Json) | Err500(error: string)

  const SaveFailed := "Failed to save message"
  const ReadFailed := "Failed to read messages"

  /** The body of a successful contact post: `{ success: true }`. */
  const SuccessBody := JObj(map["success" := JBool(true)])

  /**
   * The stored record `{ ...body, id: now, timestamp: iso }`: every body
   * field, with `id` and `timestamp` written last so that they win over
   * body fields of the same name.
   */
  function Stamp(body: map<string, Json>, now: int, iso: string): (record: map<string, Json>)
    ensures record.Keys == body.Keys + {"id", "timestamp"}
    ensures record["id"] == JNum(now) && record["timestamp"] == JStr(iso)
    ensures forall k :: k in body && k != "id" && k != "timestamp" ==> record[k] == body[k]
  {
    body["id" := JNum(now)]["timestamp" := JStr(iso)]
  }

  /** The `id` of a stored item, if it is an object with one. */
  function IdOf(item: Json): (id: Option<Json>)
  {
    if item.JObj? && "id" in item.fields then Some(item.fields["id"]) else None
  }

  /** No two stored records carry the same `id`. */
  predicate DistinctIds(items: seq<Json>)
  {
    forall i, j :: 0 <= i < j < |items| && IdOf(items[i]).Some? ==> IdOf(items[i]) != IdOf(items[j])
  }

  /**
   * The id is only as unique as the clock: after an append, the ids are
   * distinct exactly when they were distinct before and no earlier record
   * already has the clock value as its id.
   */
  lemma AppendKeepsIdsDistinct(items: seq<Json>, body: map<string, Json>, now: int, iso: string)
    ensures DistinctIds(items + [JObj(Stamp(body, now, iso))]) <==>
            DistinctIds(items) && forall i :: 0 <= i < |items| ==> IdOf(items[i]) != Some(JNum(now))
  {
    var after := items + [JObj(Stamp(body, now, iso))];
    assert IdOf(after[|items|]) == Some(JNum(now));
    assert forall i :: 0 <= i < |items| ==> after[i] == items[i];
    if DistinctIds(after) {
      forall i | 0 <= i < |items| ensures IdOf(items[i]) != Some(JNum(now)) {
        if IdOf(items[i]).Some? {
          assert IdOf(after[i]) != IdOf(after[|items|]);
        }
      }
    }
  }

  /** Two posts stamped in the same millisecond collide: the record ids are not unique. */
  lemma SameClockSameId(a: map<string, Json>, b: map<string, Json>, now: int, iso1: string, iso2: string)
    ensures !DistinctIds([JObj(Stamp(a, now, iso1)), JObj(Stamp(b, now, iso2))])
  {
    var items := [JObj(Stamp(a, now, iso1)), JObj(Stamp(b, now, iso2))];
    assert IdOf(items[0]) == IdOf(items[1]) == Some(JNum(now));
  }

  /** The server's view of `data/messages.json`. */
  class MessageStore {
    var file: StoreFile

    /** The store as found on disk at start-up. */
    constructor(disk: StoreFile)
      ensures file == disk
    {
      file := disk;
    }

    /** `initMessagesFile()`: create the file as `[]` only when it does not exist. */
    method InitMessagesFile()
      modifies this
      ensures old(file).Missing? ==> file == Parsed(JArr([]))
      ensures !old(file).Missing? ==> file == old(file)
    {
      if file.Missing? {
        file := Parsed(JArr([]));
      }
    }

    /**
     * `POST /api/contact`: read the list, push one stamped record, write
     * the whole list back. Anything but a stored array fails before the
     * write, leaving the file as it was.
     */
    method PostContact(body: map<string, Json>, now: int, iso: string) returns (reply: Reply)
      modifies this
      ensures old(file).Parsed? && old(file).doc.JArr? ==>
                file.Parsed? && file.doc.JArr? &&
                file.doc.items == old(file).doc.items + [JObj(Stamp(body, now, iso))] &&
                reply == Ok200(SuccessBody)
      ensures old(file).Parsed? && old(file).doc.JArr? ==>
                |file.doc.items| == |old(file).doc.items| + 1 &&
                file.doc.items[..|old(file).doc.items|] == old(file).doc.items
      ensures !(old(file).Parsed? && old(file).doc.JArr?) ==>
                file == old(file) && reply == Err500(SaveFailed)
    {
      match file {
        case Parsed(JArr(messages)) =>
          var updated := messages + [JObj(Stamp(body, now, iso))];
          file := Parsed(JArr(updated));
          reply := Ok200(SuccessBody);
        case _ =>
          reply := Err500(SaveFailed);
      }
    }

    /** `GET /api/messages`: the stored document as it is, or an error; the store is not changed. */
    method GetMessages() returns (reply: Reply)
      ensures file.Parsed? ==> reply == Ok200(file.doc)
      ensures !file.Parsed? ==> reply == Err500(ReadFailed)
    {
      if file.Parsed? {
        reply := Ok200(file.doc);
      } else {
        reply := Err500(ReadFailed);
      }
    }
  }
}
