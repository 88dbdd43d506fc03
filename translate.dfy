/**
 * The `POST /translate` route: authorize, validate, call the provider once,
 * then either answer with a generic failure or build the audit record,
 * append its line to today's partition and answer with the record. The
 * route sits behind the CORS origin check.
 */
module TranslateRoute {
  import opened Wrappers
  import opened Records
  import opened Json
  import opened LogFiles
  import opened JsonLines
  import opened OriginPolicy

  /** The fields of a parsed JSON body the route reads. */
  datatype RequestBody = RequestBody(text: Option<string>, target: Option<string>)

  /**
   * The parts of an inbound request the route reads. `body` is `None` when
   * the JSON parser left `req.body` undefined (no body, or not JSON).
   */
  datatype Request = Request(authorization: Option<string>, body: Option<RequestBody>)

  /** One entry of the provider's `data.translations` array. */
  datatype ProviderEntry = ProviderEntry(translatedText: Option<string>)

  /**
   * What the provider call produced: a transport failure or non-2xx status
   * (both thrown by the HTTP client), or a body whose `data.translations`
   * array may be missing.
   */
  datatype ProviderReply = TransportError | Reply(translations: Option<seq<ProviderEntry>>)

  /** The request the route sends to the provider. */
  datatype ProviderCall = ProviderCall(q: string, target: string, source: string)

  /** The source language is fixed to Myanmar, never taken from the caller. */
  const SourceLanguage: string := "my"

  datatype Body =
    | ErrorBody(error: string)
    | RecordBody(record: TranslationRecord)
    | CorsRejected(message: string)

  datatype Response = Response(status: nat, body: Body)

  const Unauthorized: Response := Response(403, ErrorBody("Unauthorized"))
  const MissingInput: Response := Response(400, ErrorBody("Missing text or target"))
  const TranslationFailed: Response := Response(500, ErrorBody("Translation failed"))

  /** What the error handler sends when the CORS check throws. */
  function CorsRejection(origin: string): (r: Response)
    ensures r.status == 500 && r.body.CorsRejected? && r != TranslationFailed
  {
    Response(500, CorsRejected("CORS not allowed for this origin: " + origin))
  }

  /** The header must be present, non-empty and exactly `Bearer <token>`. */
  predicate Authorized(header: Option<string>, token: string) {
    Truthy(header) && header.value == "Bearer " + token
  }

  /** The presence test is subsumed by the comparison: only the exact header passes. */
  lemma AuthorizedIff(header: Option<string>, token: string)
    ensures Authorized(header, token) <==> header == Some("Bearer " + token)
  {
  }

  /** A body was parsed, and both its `text` and its `target` are present and non-empty. */
  predicate HasInput(req: Request) {
    req.body.Some? && Truthy(req.body.value.text) && Truthy(req.body.value.target)
  }

  /** The text of a request with input. */
  function Text(req: Request): string
    requires HasInput(req)
  {
    req.body.value.text.value
  }

  /** The target language of a request with input. */
  function Target(req: Request): string
    requires HasInput(req)
  {
    req.body.value.target.value
  }

  /**
   * `response.data.data.translations[0].translatedText`: `None` when reading
   * it throws (no reply, no translations array, an empty one); otherwise the
   * property, which is itself absent (`undefined`) when the entry lacks it.
   */
  function ReadTranslation(reply: ProviderReply): (r: Option<Option<string>>)
    ensures r.Some? <==> reply.Reply? && reply.translations.Some? && |reply.translations.value| > 0
    ensures r.Some? ==> r.value == reply.translations.value[0].translatedText
  {
    match reply
    case TransportError => None
    case Reply(None) => None
    case Reply(Some(entries)) => if entries == [] then None else Some(entries[0].translatedText)
  }

  /** The response the route sends. */
  function Respond(token: string, req: Request, reply: ProviderReply, now: string, id: string): (r: Response)
    ensures r.status == 403 <==> !Authorized(req.authorization, token)
    ensures r.status == 400 <==> Authorized(req.authorization, token) && req.body.Some? && !HasInput(req)
    ensures r.status == 500 <==>
      Authorized(req.authorization, token) && (req.body.None? || (HasInput(req) && ReadTranslation(reply).None?))
    ensures r.status == 200 <==> r.body.RecordBody?
    ensures r.status in {200, 400, 403, 500}
    ensures r.status == 403 ==> r == Unauthorized
    ensures r.status == 400 ==> r == MissingInput
    ensures r.status == 500 ==> r == TranslationFailed
    ensures r.status == 200 ==>
      HasInput(req) && ReadTranslation(reply).Some? &&
      r.body.record == TranslationRecord(now, id, Text(req), ReadTranslation(reply).value, Target(req))
  {
    if !Authorized(req.authorization, token) then Unauthorized
    else if req.body.None? then TranslationFailed
    else if !HasInput(req) then MissingInput
    else
      match ReadTranslation(reply)
      case None => TranslationFailed
      case Some(output) => Response(200, RecordBody(TranslationRecord(now, id, Text(req), output, Target(req))))
  }

  /** The provider requests the route issues: one after validation, none before, never a retry. */
  function CallsMade(token: string, req: Request): (calls: seq<ProviderCall>)
    ensures |calls| <= 1
    ensures calls == [] <==> !Authorized(req.authorization, token) || !HasInput(req)
    ensures calls != [] ==> calls[0] == ProviderCall(Text(req), Target(req), SourceLanguage)
  {
    if Authorized(req.authorization, token) && HasInput(req)
    then [ProviderCall(Text(req), Target(req), SourceLanguage)]
    else []
  }

  /**
   * The log appends the route issues: the line of the record it answers
   * with, to the partition of the second clock reading, only on success.
   */
  function AppendsMade(token: string, req: Request, reply: ProviderReply, now: string, later: string, id: string)
    : (appends: seq<LogAppend>)
    ensures |appends| <= |CallsMade(token, req)|
    ensures appends != [] <==> Respond(token, req, reply, now, id).status == 200
    ensures appends != [] ==>
      appends == [LogAppend(LogFilePath(later), RecordLine(Respond(token, req, reply, now, id).body.record))]
    ensures appends != [] && DatePrefix(now) == DatePrefix(later) ==>
      appends[0].path == LogFilePath(Respond(token, req, reply, now, id).body.record.timestamp)
  {
    var r := Respond(token, req, reply, now, id);
    if r.status == 200 then
      SamePartitionIff(now, later);
      [LogAppend(LogFilePath(later), RecordLine(r.body.record))]
    else []
  }

  /**
   * A valid request for Myanmar text to English, answered by the provider
   * with "Hello", is answered with the record of that exchange and logs its
   * line to the partition of the second clock reading.
   */
  lemma MyanmarToEnglish(token: string, now: string, later: string, id: string)
    ensures
      var req := Request(Some("Bearer " + token), Some(RequestBody(Some("မင်္ဂလာပါ"), Some("en"))));
      var reply := Reply(Some([ProviderEntry(Some("Hello"))]));
      var rec := TranslationRecord(now, id, "မင်္ဂလာပါ", Some("Hello"), "en");
      Respond(token, req, reply, now, id) == Response(200, RecordBody(rec)) &&
      CallsMade(token, req) == [ProviderCall("မင်္ဂလာပါ", "en", "my")] &&
      AppendsMade(token, req, reply, now, later, id) == [LogAppend(LogFilePath(later), RecordLine(rec))]
  {
  }

  /** An entry without `translatedText` is not a failure: the record's output is absent. */
  lemma EntryWithoutTextAnswered(token: string, text: string, target: string, now: string, id: string)
    requires text != "" && target != ""
    ensures
      var req := Request(Some("Bearer " + token), Some(RequestBody(Some(text), Some(target))));
      Respond(token, req, Reply(Some([ProviderEntry(None)])), now, id)
        == Response(200, RecordBody(TranslationRecord(now, id, text, None, target)))
  {
  }

  /**
   * An authorized request without a parsed body fails when the route
   * destructures it: 500 and no provider request.
   */
  lemma MissingBodyFails(token: string, reply: ProviderReply, now: string, id: string)
    ensures
      var req := Request(Some("Bearer " + token), None);
      Respond(token, req, reply, now, id) == TranslationFailed && CallsMade(token, req) == []
  {
  }

  /** The provider request a record was produced from. */
  function CallFor(r: TranslationRecord): ProviderCall {
    ProviderCall(r.input, r.target, SourceLanguage)
  }

  /**
   * `callOf[i]` is the provider request behind the i-th record: the indices
   * ascend, and each names a request for that record's input and target.
   */
  predicate RecordsFollowCalls(calls: seq<ProviderCall>, records: seq<TranslationRecord>, callOf: seq<nat>)
    decreases |callOf|
  {
    |callOf| == |records| &&
    (|callOf| > 0 ==>
      var n := |callOf| - 1;
      RecordsFollowCalls(calls, records[..n], callOf[..n]) &&
      (n > 0 ==> callOf[n - 1] < callOf[n]) &&
      callOf[n] < |calls| && calls[callOf[n]] == CallFor(records[n]))
  }

  /** Each record names a provider request for its own input and target. */
  lemma {:induction false} RecordCall(calls: seq<ProviderCall>, records: seq<TranslationRecord>, callOf: seq<nat>, i: nat)
    requires RecordsFollowCalls(calls, records, callOf) && i < |records|
    ensures callOf[i] < |calls| && calls[callOf[i]] == CallFor(records[i])
    decreases |callOf|
  {
    var n := |callOf| - 1;
    if i < n {
      RecordCall(calls, records[..n], callOf[..n], i);
    }
  }

  /** Later records follow later provider requests: no request is behind two records. */
  lemma {:induction false} CallsAscend(calls: seq<ProviderCall>, records: seq<TranslationRecord>, callOf: seq<nat>, i: nat, j: nat)
    requires RecordsFollowCalls(calls, records, callOf) && i < j < |records|
    ensures callOf[i] < callOf[j]
    decreases |callOf|
  {
    var n := |callOf| - 1;
    if j < n {
      CallsAscend(calls, records[..n], callOf[..n], i, j);
    } else if i < n - 1 {
      CallsAscend(calls, records[..n], callOf[..n], i, n - 1);
    }
  }

  /** A provider request that produced no record keeps the correspondence. */
  lemma {:induction false} CallWithoutRecord(calls: seq<ProviderCall>, records: seq<TranslationRecord>, callOf: seq<nat>, c: ProviderCall)
    requires RecordsFollowCalls(calls, records, callOf)
    ensures RecordsFollowCalls(calls + [c], records, callOf)
    decreases |callOf|
  {
    if |callOf| > 0 {
      var n := |callOf| - 1;
      CallWithoutRecord(calls, records[..n], callOf[..n], c);
      assert (calls + [c])[callOf[n]] == calls[callOf[n]];
    }
  }

  /** A provider request followed by the record it produced extends the correspondence. */
  lemma CallWithRecord(calls: seq<ProviderCall>, records: seq<TranslationRecord>, callOf: seq<nat>, r: TranslationRecord)
    requires RecordsFollowCalls(calls, records, callOf)
    ensures RecordsFollowCalls(calls + [CallFor(r)], records + [r], callOf + [|calls|])
  {
    var k: nat := |calls|;
    CallWithoutRecord(calls, records, callOf, CallFor(r));
    assert (records + [r])[..|records|] == records;
    assert (callOf + [k])[..|callOf|] == callOf;
  }

  /**
   * The service: the configured bearer token, the provider requests sent so
   * far and the log appends issued so far. `records` is the record behind
   * each append and `callOf` the provider request behind each record.
   */
  class TranslationService {
    const token: string
    var providerCalls: seq<ProviderCall>
    var log: seq<LogAppend>
    ghost var records: seq<TranslationRecord>
    ghost var callOf: seq<nat>

    /**
     * Every append is a record line, each record follows its own provider
     * request, and there are never more appends than provider requests.
     */
    ghost predicate Valid()
      reads this
    {
      LinesOf(log, records) && RecordsFollowCalls(providerCalls, records, callOf) && |log| <= |providerCalls|
    }

    constructor (token: string)
      ensures Valid()
      ensures this.token == token && providerCalls == [] && log == [] && records == [] && callOf == []
    {
      this.token := token;
      providerCalls := [];
      log := [];
      records := [];
      callOf := [];
    }

    /**
     * The `/translate` handler. `reply` is what the provider call produced;
     * `now` and `later` are the two clock readings (for the record and for
     * the log file name) and `id` the generated request id.
     */
    method Translate(req: Request, reply: ProviderReply, now: string, later: string, id: string)
      returns (resp: Response)
      requires Valid()
      modifies this
      ensures Valid()
      ensures resp == Respond(token, req, reply, now, id)
      ensures providerCalls == old(providerCalls) + CallsMade(token, req)
      ensures log == old(log) + AppendsMade(token, req, reply, now, later, id)
      ensures records == old(records) + (if resp.status == 200 then [resp.body.record] else [])
      ensures callOf == old(callOf) + (if resp.status == 200 then [|old(providerCalls)|] else [])
    {
      var header := req.authorization;
      if header.None? || header.value == "" || header.value != "Bearer " + token {
        return Unauthorized;
      }
      // Destructuring an undefined body throws inside the try block.
      if req.body.None? {
        return TranslationFailed;
      }
      var text, target := req.body.value.text, req.body.value.target;
      if text.None? || text.value == "" || target.None? || target.value == "" {
        return MissingInput;
      }
      resp := Forward(text.value, target.value, reply, now, later, id);
    }

    /**
     * The part of the handler after validation: one provider request, then
     * either the generic failure or the record, its log append and the 200
     * answer.
     */
    method Forward(text: string, target: string, reply: ProviderReply, now: string, later: string, id: string)
      returns (resp: Response)
      requires Valid()
      modifies this
      ensures Valid()
      ensures providerCalls == old(providerCalls) + [ProviderCall(text, target, SourceLanguage)]
      ensures ReadTranslation(reply).None? ==>
        resp == TranslationFailed && log == old(log) && records == old(records) && callOf == old(callOf)
      ensures ReadTranslation(reply).Some? ==>
        var record := TranslationRecord(now, id, text, ReadTranslation(reply).value, target);
        resp == Response(200, RecordBody(record)) &&
        log == old(log) + [LogAppend(LogFilePath(later), RecordLine(record))] &&
        records == old(records) + [record] &&
        callOf == old(callOf) + [|old(providerCalls)|]
    {
      var calls := providerCalls;
      providerCalls := providerCalls + [ProviderCall(text, target, SourceLanguage)];
      var translated := ReadTranslation(reply);
      if translated.None? {
        CallWithoutRecord(calls, records, callOf, providerCalls[|calls|]);
        return TranslationFailed;
      }
      var record := TranslationRecord(now, id, text, translated.value, target);
      var entry := LogAppend(LogFilePath(later), RecordLine(record));
      LinesOfSnoc(log, records, entry, record);
      CallWithRecord(calls, records, callOf, record);
      log := log + [entry];
      records := records + [record];
      var call: nat := |calls|;
      callOf := callOf + [call];
      resp := Response(200, RecordBody(record));
    }

    /** A request to the route as it arrives: the CORS check first, then the handler. */
    method Serve(origin: Option<string>, req: Request, reply: ProviderReply, now: string, later: string, id: string)
      returns (resp: Response)
      requires Valid()
      modifies this
      ensures Valid()
      ensures !OriginAllowed(origin, AllowedOrigins) ==>
        resp == CorsRejection(origin.value) &&
        providerCalls == old(providerCalls) && log == old(log) && records == old(records) && callOf == old(callOf)
      ensures OriginAllowed(origin, AllowedOrigins) ==>
        resp == Respond(token, req, reply, now, id) &&
        providerCalls == old(providerCalls) + CallsMade(token, req) &&
        log == old(log) + AppendsMade(token, req, reply, now, later, id) &&
        records == old(records) + (if resp.status == 200 then [resp.body.record] else []) &&
        callOf == old(callOf) + (if resp.status == 200 then [|old(providerCalls)|] else [])
    {
      if !OriginAllowed(origin, AllowedOrigins) {
        return CorsRejection(origin.value);
      }
      resp := Translate(req, reply, now, later, id);
    }

    /** Every partition reads back as the records appended to it, in order. */
    lemma PartitionsReadBack(p: LogPath)
      requires Valid()
      ensures DecodePartition(Content(log, p)) == Some(RecordsAt(log, records, p))
    {
      PartitionDecodes(log, records, p);
    }
  }
}
