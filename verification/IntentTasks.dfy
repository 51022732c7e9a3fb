/** The queued task, its normalisation at construction, and its dictionary form. */
module IntentTasks {
  import opened Common

  type TaskId = string

  datatype TaskState = Queued | Running | Retrying | Done | Failed

  datatype IntentTask = IntentTask(
    taskId: TaskId,
    sessionId: string,
    buyerId: string,
    locale: string,
    currency: string,
    rawQuery: string,
    enqueuedAt: Json,
    priority: nat)

  /** One decoded JSON value, as far as `from_dict` tells values apart; Python's decoder knows infinite numbers. */
  datatype Json = Text(text: string) | Number(number: int) | Infinity | Other(truthy: bool)

  predicate Truthy(value: Json) {
    match value
    case Text(text) => text != ""
    case Number(number) => number != 0
    case Infinity => true
    case Other(truthy) => truthy
  }

  /** A decoded JSON object: the keys it has and their values. */
  type Record = map<string, Json>

  datatype TaskError = MissingKey | WrongType | Empty | BadCurrency | NegativePriority

  /** Characters that Python's str.strip() removes. */
  predicate IsSpace(c: char) {
    || '\t' <= c <= '\r' || '\U{1c}' <= c <= '\U{20}' || c == '\U{85}' || c == '\U{a0}' || c == '\U{1680}'
    || '\U{2000}' <= c <= '\U{200a}' || c == '\U{2028}' || c == '\U{2029}' || c == '\U{202f}'
    || c == '\U{205f}' || c == '\U{3000}'
  }

  function LStrip(s: string): string {
    if s != [] && IsSpace(s[0]) then LStrip(s[1..]) else s
  }

  function RStrip(s: string): string {
    if s != [] && IsSpace(s[|s| - 1]) then RStrip(s[..|s| - 1]) else s
  }

  function Strip(s: string): string {
    RStrip(LStrip(s))
  }

  predicate Stripped(s: string) {
    s == [] || (!IsSpace(s[0]) && !IsSpace(s[|s| - 1]))
  }

  lemma {:induction false} LStripEnds(s: string)
    ensures LStrip(s) == [] || !IsSpace(LStrip(s)[0])
    decreases |s|
  {
    if s != [] && IsSpace(s[0]) {
      LStripEnds(s[1..]);
    }
  }

  lemma {:induction false} RStripEnds(s: string)
    ensures RStrip(s) <= s
    ensures RStrip(s) == [] || !IsSpace(RStrip(s)[|RStrip(s)| - 1])
    decreases |s|
  {
    if s != [] && IsSpace(s[|s| - 1]) {
      RStripEnds(s[..|s| - 1]);
    }
  }

  /** Stripping leaves no white space at either end, and changes nothing that has none there. */
  lemma StripIsStripped(s: string)
    ensures Stripped(Strip(s))
    ensures Stripped(s) ==> Strip(s) == s
  {
    LStripEnds(s);
    RStripEnds(LStrip(s));
  }

  predicate AllSpace(s: string) {
    forall c <- s :: IsSpace(c)
  }

  lemma {:induction false} LStripPadded(pad: string, s: string)
    requires AllSpace(pad)
    ensures LStrip(pad + s) == LStrip(s)
  {
    hide IsSpace;
    if pad == [] {
      assert pad + s == s;
    } else {
      assert pad[0] in pad && forall c <- pad[1..] :: c in pad;
      LStripPadded(pad[1..], s);
      assert (pad + s)[1..] == pad[1..] + s;
    }
  }

  lemma {:induction false} RStripPadded(s: string, pad: string)
    requires AllSpace(pad)
    ensures RStrip(s + pad) == RStrip(s)
    decreases |pad|
  {
    hide IsSpace;
    if pad == [] {
      assert s + pad == s;
    } else {
      var n := |pad| - 1;
      assert pad[n] in pad && forall c <- pad[..n] :: c in pad;
      RStripPadded(s, pad[..n]);
      assert (s + pad)[..|s| + n] == s + pad[..n];
    }
  }

  lemma {:induction false} LStripAppend(s: string, pad: string)
    requires AllSpace(pad)
    ensures LStrip(s + pad) == if LStrip(s) == [] then [] else LStrip(s) + pad
  {
    hide IsSpace;
    if s == [] {
      assert s + pad == pad + [] && LStrip([]) == [];
      LStripPadded(pad, []);
    } else if IsSpace(s[0]) {
      LStripAppend(s[1..], pad);
      assert (s + pad)[1..] == s[1..] + pad;
    }
  }

  /** White space around a text does not change what stripping leaves of it. */
  lemma PaddingIsStripped(front: string, s: string, back: string)
    requires AllSpace(front) && AllSpace(back)
    ensures Strip(front + s + back) == Strip(s)
  {
    hide AllSpace, LStrip, RStrip;
    assert front + s + back == front + (s + back);
    LStripPadded(front, s + back);
    LStripAppend(s, back);
    if LStrip(s) != [] {
      RStripPadded(LStrip(s), back);
    }
  }

  function UpperChar(c: char): char {
    if 'a' <= c <= 'z' then c - 'a' + 'A' else c
  }

  function Upper(s: string): string {
    seq(|s|, i requires 0 <= i < |s| => UpperChar(s[i]))
  }

  /** IntentTask(...): the checks of the constructor, then its normalisation. */
  function MakeTask(taskId: string, sessionId: string, buyerId: string, locale: string,
                    currency: string, rawQuery: string, enqueuedAt: Json, priority: int)
    : Result<IntentTask, TaskError>
  {
    if Strip(taskId) == [] || Strip(sessionId) == [] || Strip(buyerId) == [] || Strip(rawQuery) == [] then Err(Empty)
    else if |Upper(Strip(currency))| != 3 then Err(BadCurrency)
    else if priority < 0 then Err(NegativePriority)
    else Ok(IntentTask(Strip(taskId), Strip(sessionId), Strip(buyerId),
                       if Strip(locale) == [] then "zh-CN" else Strip(locale),
                       Upper(Strip(currency)), Strip(rawQuery), enqueuedAt, priority))
  }

  /** The tasks that a constructor call can produce. */
  predicate Constructed(t: IntentTask) {
    && Stripped(t.taskId) && t.taskId != []
    && Stripped(t.sessionId) && t.sessionId != []
    && Stripped(t.buyerId) && t.buyerId != []
    && Stripped(t.locale) && t.locale != []
    && Stripped(t.rawQuery) && t.rawQuery != []
    && Stripped(t.currency) && |t.currency| == 3 && Upper(t.currency) == t.currency
  }

  lemma UpperKeepsStripped(s: string)
    ensures Upper(Upper(s)) == Upper(s)
    ensures Stripped(s) ==> Stripped(Upper(s))
  {
  }

  lemma MakeTaskIsConstructed(taskId: string, sessionId: string, buyerId: string, locale: string,
                              currency: string, rawQuery: string, enqueuedAt: Json, priority: int)
    ensures var r := MakeTask(taskId, sessionId, buyerId, locale, currency, rawQuery, enqueuedAt, priority);
            r.Ok? ==> Constructed(r.value)
  {
    StripIsStripped(taskId);
    StripIsStripped(sessionId);
    StripIsStripped(buyerId);
    StripIsStripped(locale);
    StripIsStripped(currency);
    StripIsStripped(rawQuery);
    UpperKeepsStripped(Strip(currency));
  }

  /** SubmitIntentInput: the request as the command object holds it. */
  datatype IntentInput = IntentInput(sessionId: string, buyerId: string, locale: string, currency: string, rawQuery: string)

  /** The command object refuses what it cannot normalise, before anything else happens. */
  function MakeInput(raw: IntentInput): Result<IntentInput, TaskError> {
    if Strip(raw.sessionId) == [] || Strip(raw.buyerId) == [] || Strip(raw.rawQuery) == [] then Err(Empty)
    else if |Upper(Strip(raw.currency))| != 3 then Err(BadCurrency)
    else Ok(IntentInput(Strip(raw.sessionId), Strip(raw.buyerId),
                        if Strip(raw.locale) == [] then "zh-CN" else Strip(raw.locale),
                        Upper(Strip(raw.currency)), Strip(raw.rawQuery)))
  }

  predicate NormalInput(input: IntentInput) {
    && Stripped(input.sessionId) && input.sessionId != []
    && Stripped(input.buyerId) && input.buyerId != []
    && Stripped(input.locale) && input.locale != []
    && Stripped(input.rawQuery) && input.rawQuery != []
    && Stripped(input.currency) && |input.currency| == 3 && Upper(input.currency) == input.currency
  }

  /** A request in normal form is accepted as it is; what is accepted has normal form; and so accepting it again
      changes nothing. */
  lemma NormalInputIsKept(raw: IntentInput)
    ensures NormalInput(raw) ==> MakeInput(raw) == Ok(raw)
    ensures MakeInput(raw).Ok? ==> NormalInput(MakeInput(raw).value) && MakeInput(MakeInput(raw).value) == MakeInput(raw)
  {
    hide IsSpace, Strip, Upper, Stripped;
    StripsAreStripped(raw);
    UpperKeepsStripped(Strip(raw.currency));
    assert Stripped("zh-CN") by { DefaultLocaleIsStripped(); }
    if MakeInput(raw).Ok? {
      StripsAreStripped(MakeInput(raw).value);
      UpperKeepsStripped(Upper(Strip(raw.currency)));
    }
  }

  lemma StripsAreStripped(raw: IntentInput)
    ensures Stripped(Strip(raw.sessionId)) && Stripped(Strip(raw.buyerId)) && Stripped(Strip(raw.locale))
    ensures Stripped(Strip(raw.currency)) && Stripped(Strip(raw.rawQuery))
    ensures Stripped(raw.sessionId) ==> Strip(raw.sessionId) == raw.sessionId
    ensures Stripped(raw.buyerId) ==> Strip(raw.buyerId) == raw.buyerId
    ensures Stripped(raw.locale) ==> Strip(raw.locale) == raw.locale
    ensures Stripped(raw.currency) ==> Strip(raw.currency) == raw.currency
    ensures Stripped(raw.rawQuery) ==> Strip(raw.rawQuery) == raw.rawQuery
  {
    hide Strip, Stripped;
    StripIsStripped(raw.sessionId);
    StripIsStripped(raw.buyerId);
    StripIsStripped(raw.locale);
    StripIsStripped(raw.currency);
    StripIsStripped(raw.rawQuery);
  }

  /** `padded` is the text with white space around it. */
  ghost predicate PaddedFrom(padded: string, s: string) {
    exists front, back :: AllSpace(front) && AllSpace(back) && padded == front + s + back
  }

  lemma PaddedStripsTheSame(padded: string, s: string)
    requires PaddedFrom(padded, s)
    ensures Strip(padded) == Strip(s)
  {
    hide AllSpace, Strip;
    var front, back :| AllSpace(front) && AllSpace(back) && padded == front + s + back;
    PaddingIsStripped(front, s, back);
  }

  /** White space around any field changes neither whether a request is accepted nor any field of the result. */
  lemma PaddingChangesNothing(raw: IntentInput, padded: IntentInput)
    requires PaddedFrom(padded.sessionId, raw.sessionId) && PaddedFrom(padded.buyerId, raw.buyerId)
    requires PaddedFrom(padded.locale, raw.locale) && PaddedFrom(padded.currency, raw.currency)
    requires PaddedFrom(padded.rawQuery, raw.rawQuery)
    ensures MakeInput(padded) == MakeInput(raw)
  {
    hide PaddedFrom, Strip;
    PaddedStripsTheSame(padded.sessionId, raw.sessionId);
    PaddedStripsTheSame(padded.buyerId, raw.buyerId);
    PaddedStripsTheSame(padded.locale, raw.locale);
    PaddedStripsTheSame(padded.currency, raw.currency);
    PaddedStripsTheSame(padded.rawQuery, raw.rawQuery);
  }

  /** The task has the call's id and the stripped fields of the request: the session, the buyer, the query, the
      currency in upper case, and the locale or else the default one. */
  predicate CarriesRequest(task: IntentTask, taskId: string, raw: IntentInput) {
    && task.taskId == taskId
    && task.sessionId == Strip(raw.sessionId)
    && task.buyerId == Strip(raw.buyerId)
    && task.rawQuery == Strip(raw.rawQuery)
    && task.currency == Upper(Strip(raw.currency))
    && task.locale == (if Strip(raw.locale) == [] then "zh-CN" else Strip(raw.locale))
  }

  /** The task of a request: `now` is its enqueue time. */
  function TaskFor(taskId: string, input: IntentInput, now: string, priority: nat): Result<IntentTask, TaskError> {
    MakeTask(taskId, input.sessionId, input.buyerId, input.locale, input.currency, input.rawQuery, Text(now), priority)
  }

  /** What the command object accepts, the constructor of the task accepts and leaves as it is. */
  lemma AcceptedInputBuilds(taskId: string, raw: IntentInput, now: string, priority: nat)
    requires MakeInput(raw).Ok? && Stripped(taskId) && taskId != ""
    ensures var input := MakeInput(raw).value;
            TaskFor(taskId, input, now, priority) ==
            Ok(IntentTask(taskId, input.sessionId, input.buyerId, input.locale, input.currency, input.rawQuery, Text(now), priority))
    ensures CarriesRequest(TaskFor(taskId, MakeInput(raw).value, now, priority).value, taskId, raw)
  {
    hide Strip, IsSpace, Upper;
    StripIsStripped(taskId);
    StripIsStripped(raw.sessionId);
    StripIsStripped(raw.buyerId);
    StripIsStripped(raw.locale);
    StripIsStripped(raw.currency);
    StripIsStripped(raw.rawQuery);
    UpperKeepsStripped(Strip(raw.currency));
    var input := MakeInput(raw).value;
    StripIsStripped(input.sessionId);
    StripIsStripped(input.buyerId);
    StripIsStripped(input.locale);
    StripIsStripped(input.currency);
    StripIsStripped(input.rawQuery);
    assert Stripped("zh-CN") by { DefaultLocaleIsStripped(); }
  }

  lemma DefaultLocaleIsStripped()
    ensures Stripped("zh-CN")
  {
  }

  /** For any fields, the constructor accepts exactly what the command object accepts: a query of white space,
      for one, is refused by both, so by the command object first. */
  lemma BothRefuseTheSame(taskId: string, raw: IntentInput, now: string, priority: nat)
    requires Stripped(taskId) && taskId != ""
    ensures TaskFor(taskId, raw, now, priority).Ok? <==> MakeInput(raw).Ok?
    ensures raw.rawQuery == "   " ==> MakeInput(raw).Err? && TaskFor(taskId, raw, now, priority).Err?
  {
    BlanksStripToNothing();
    hide Strip, IsSpace;
    StripIsStripped(taskId);
  }

  lemma BlanksStripToNothing()
    ensures Strip("   ") == ""
  {
    var three, two, one := "   ", "  ", " ";
    assert three[1..] == two && two[1..] == one && one[1..] == "";
    assert LStrip(one) == "" && LStrip(two) == "" && LStrip(three) == "";
  }

  function ToDict(t: IntentTask): Record {
    map["task_id" := Text(t.taskId), "shopping_session_id" := Text(t.sessionId),
        "buyer_id" := Text(t.buyerId), "locale" := Text(t.locale), "currency" := Text(t.currency),
        "raw_query" := Text(t.rawQuery), "enqueued_at" := t.enqueuedAt, "priority" := Number(t.priority)]
  }

  function GetText(raw: Record, key: string, default: Option<string>): Result<string, TaskError> {
    if key !in raw then (if default.Some? then Ok(default.value) else Err(MissingKey))
    else if raw[key].Text? then Ok(raw[key].text)
    else Err(WrongType)
  }

  function GetPriority(raw: Record): Result<int, TaskError> {
    if "priority" !in raw then Ok(0)
    else if raw["priority"].Number? then Ok(raw["priority"].number)
    else Err(WrongType)
  }

  /** raw.get("enqueued_at") or now: the field is not validated. */
  function GetEnqueuedAt(raw: Record, now: string): Json {
    if "enqueued_at" in raw && Truthy(raw["enqueued_at"]) then raw["enqueued_at"] else Text(now)
  }

  /** IntentTask.from_dict; `now` is the clock reading used when the record has no time of its own. */
  function FromDict(raw: Record, now: string): Result<IntentTask, TaskError> {
    match (GetText(raw, "task_id", None), GetText(raw, "shopping_session_id", None),
           GetText(raw, "buyer_id", None), GetText(raw, "locale", Some("zh-CN")),
           GetText(raw, "currency", Some("CNY")), GetText(raw, "raw_query", None),
           GetPriority(raw))
    case (Ok(id), Ok(session), Ok(buyer), Ok(locale), Ok(currency), Ok(query), Ok(priority)) =>
      MakeTask(id, session, buyer, locale, currency, query, GetEnqueuedAt(raw, now), priority)
    case _ => Err(WrongType)
  }

  /**
   Every constructed task decodes from its dictionary with all fields as they were, except that a
   falsy enqueue time is replaced by the clock.  So the round trip is exact if and only if the task
   carries a truthy enqueue time (the default always is), or the very text the clock reads.
   */
  lemma DictRoundTrip(t: IntentTask, now: string)
    requires Constructed(t)
    ensures FromDict(ToDict(t), now) ==
            Ok(t.(enqueuedAt := if Truthy(t.enqueuedAt) then t.enqueuedAt else Text(now)))
    ensures FromDict(ToDict(t), now) == Ok(t) <==> Truthy(t.enqueuedAt) || t.enqueuedAt == Text(now)
  {
    hide Strip, IsSpace, Upper;
    StripIsStripped(t.taskId);
    StripIsStripped(t.sessionId);
    StripIsStripped(t.buyerId);
    StripIsStripped(t.locale);
    StripIsStripped(t.currency);
    StripIsStripped(t.rawQuery);
    var raw := ToDict(t);
    assert GetText(raw, "task_id", None) == Ok(t.taskId);
    assert GetText(raw, "shopping_session_id", None) == Ok(t.sessionId);
    assert GetText(raw, "buyer_id", None) == Ok(t.buyerId);
    assert GetText(raw, "locale", Some("zh-CN")) == Ok(t.locale);
    assert GetText(raw, "currency", Some("CNY")) == Ok(t.currency);
    assert GetText(raw, "raw_query", None) == Ok(t.rawQuery);
    assert GetPriority(raw) == Ok(t.priority);
  }

  /** A task that was decoded once is a constructed task, so passing it on changes nothing more. */
  lemma FromDictIsConstructed(raw: Record, now: string)
    ensures var r := FromDict(raw, now); r.Ok? ==> Constructed(r.value)
  {
    var id, session, buyer := GetText(raw, "task_id", None), GetText(raw, "shopping_session_id", None), GetText(raw, "buyer_id", None);
    var locale, currency := GetText(raw, "locale", Some("zh-CN")), GetText(raw, "currency", Some("CNY"));
    var query, priority := GetText(raw, "raw_query", None), GetPriority(raw);
    if id.Ok? && session.Ok? && buyer.Ok? && locale.Ok? && currency.Ok? && query.Ok? && priority.Ok? {
      MakeTaskIsConstructed(id.value, session.value, buyer.value, locale.value, currency.value, query.value, GetEnqueuedAt(raw, now), priority.value);
    }
  }

  lemma DefaultsAreNormal()
    ensures Strip("zh-CN") == "zh-CN" && Upper(Strip("CNY")) == "CNY"
  {
    StripIsStripped("zh-CN");
    StripIsStripped("CNY");
    assert Upper("CNY") == "CNY";
  }

  /** A dictionary without the optional keys decodes to the task with their defaults. */
  lemma MissingKeysHaveDefaults(t: IntentTask, now: string)
    requires Constructed(t)
    ensures FromDict(ToDict(t) - {"locale", "currency", "enqueued_at", "priority"}, now) ==
            Ok(t.(locale := "zh-CN", currency := "CNY", enqueuedAt := Text(now), priority := 0))
  {
    hide Strip, IsSpace, Upper;
    DefaultsAreNormal();
    StripIsStripped(t.taskId);
    StripIsStripped(t.sessionId);
    StripIsStripped(t.buyerId);
    StripIsStripped(t.rawQuery);
    var raw := ToDict(t) - {"locale", "currency", "enqueued_at", "priority"};
    assert GetText(raw, "task_id", None) == Ok(t.taskId);
    assert GetText(raw, "shopping_session_id", None) == Ok(t.sessionId);
    assert GetText(raw, "buyer_id", None) == Ok(t.buyerId);
    assert GetText(raw, "locale", Some("zh-CN")) == Ok("zh-CN");
    assert GetText(raw, "currency", Some("CNY")) == Ok("CNY");
    assert GetText(raw, "raw_query", None) == Ok(t.rawQuery);
    assert GetPriority(raw) == Ok(0) && GetEnqueuedAt(raw, now) == Text(now);
    hide ToDict, GetText, GetPriority, GetEnqueuedAt, Stripped;
  }

  /** A dictionary without a required key does not decode. */
  lemma RequiredKeysAreRequired(raw: Record, now: string)
    requires !({"task_id", "shopping_session_id", "buyer_id", "raw_query"} <= raw.Keys)
    ensures FromDict(raw, now).Err?
  {
    hide MakeTask;
  }
}
