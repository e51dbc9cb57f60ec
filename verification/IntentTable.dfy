/** The intent registry as its callers use it, the confirmation that goes through it, and the stored form of a record. */
module IntentTable {
  import opened Wrappers
  import opened Intents

  datatype Marked = Used(item: Item) | NotPublished | Refused

  function MarkedBy(items: Items, token: string, trigger: string, pr: int, now: int): Marked {
    if token !in items then Refused
    else if Consumable(items[token], trigger, pr, now) then Used(items[token].(used := true))
    else
      var item := items[token];
      if !item.used && item.pinned.expiresAt > now && item.pinned.trigger == trigger && item.pinned.pr == pr then NotPublished
      else Refused
  }

  datatype Confirmed = Accepted(payload: Payload) | Rejected(refusals: seq<Refusal>)

  /** The answer to a confirmation that read `read` and marked against `found`. */
  function Answer(read: Option<Item>, found: Items, request: Request, checkedAt: int, markedAt: int, fold: string -> string): Confirmed {
    if read.None? then Rejected([Unknown])
    else if Refusals(read.value, request, checkedAt, fold) != [] then Rejected(Refusals(read.value, request, checkedAt, fold))
    else
      match MarkedBy(found, request.token, request.trigger, request.pr, markedAt)
      case Used(item) => Accepted(Payload(request.token, item.pinned, item.metadata, item.birth))
      case NotPublished => Rejected([NotReady])
      case Refused => Rejected([Conflict])
  }

  class IntentTable {
    var items: Items
    var births: nat

    constructor ()
      ensures items == map[] && births == 0
    {
      items, births := map[], 0;
    }

    method Put(token: string, pinned: Pinned, metadata: Metadata) returns (ok: bool)
      modifies this
      ensures ok <==> token !in old(items)
      ensures ok ==> items == old(items)[token := Item(pinned, metadata, false, old(births))] && births == old(births) + 1
      ensures !ok ==> items == old(items) && births == old(births)
    {
      ok := token !in items;
      if ok {
        items, births := items[token := Item(pinned, metadata, false, births)], births + 1;
      }
    }

    method Get(token: string) returns (item: Option<Item>)
      ensures item == if token in items then Some(items[token]) else None
    {
      item := if token in items then Some(items[token]) else None;
    }

    /** Add comment metadata; nothing is sent when there is nothing to add. */
    method Describe(token: string, metadata: Metadata) returns (ok: bool)
      modifies this`items
      ensures metadata == Metadata(None, None, None) ==> ok && items == old(items)
      ensures metadata != Metadata(None, None, None) ==> (ok <==> token in old(items))
      ensures token in old(items) ==> items == old(items)[token := old(items)[token].(metadata := Merge(old(items)[token].metadata, metadata))]
      ensures token !in old(items) ==> items == old(items)
    {
      if metadata == Metadata(None, None, None) {
        assert token in items ==> items == items[token := items[token].(metadata := Merge(items[token].metadata, metadata))];
        return true;
      }
      ok := token in items;
      if ok {
        items := items[token := items[token].(metadata := Merge(items[token].metadata, metadata))];
      }
    }

    /** Consume the token; a refused update is explained by reading the record again. */
    method MarkUsed(token: string, trigger: string, pr: int, now: int) returns (marked: Marked)
      modifies this`items
      ensures marked == MarkedBy(old(items), token, trigger, pr, now)
      ensures marked.Used? ==> items == old(items)[token := marked.item] && !old(items)[token].used && marked.item.used
      ensures !marked.Used? ==> items == old(items)
    {
      if token in items && Consumable(items[token], trigger, pr, now) {
        items := items[token := items[token].(used := true)];
        return Used(items[token]);
      }
      var item := Get(token);
      if item.Some? && !item.value.used && item.value.pinned.expiresAt > now && item.value.pinned.trigger == trigger
         && item.value.pinned.pr == pr && !MetadataReady(item.value.metadata) {
        return NotPublished;
      }
      marked := Refused;
    }

    method DeleteUnused(token: string) returns (deleted: bool)
      modifies this`items
      ensures deleted <==> token in old(items) && !old(items)[token].used
      ensures items == if deleted then old(items) - {token} else old(items)
    {
      deleted := token in items && !items[token].used;
      if deleted {
        items := items - {token};
      }
    }

    /** Anything other callers do between two calls. */
    method Interfere(other: Items)
      modifies this`items
      ensures items == other
    {
      items := other;
    }

    /** Read, check, and mark; `between` is what the table holds when the mark arrives. */
    method Confirm(request: Request, checkedAt: int, markedAt: int, fold: string -> string, between: Items) returns (answer: Confirmed)
      modifies this
      ensures var read := if request.token in old(items) then Some(old(items)[request.token]) else None;
              answer == Answer(read, between, request, checkedAt, markedAt, fold)
      ensures answer.Accepted? ==>
                && request.token in between && !between[request.token].used
                && items == between[request.token := between[request.token].(used := true)]
                && answer.payload.pinned == between[request.token].pinned
                && answer.payload.pinned.trigger == request.trigger && answer.payload.pinned.pr == request.pr
                && MetadataReady(answer.payload.metadata)
      ensures answer.Rejected? ==> items == old(items) || items == between
    {
      var read := Get(request.token);
      if read.None? {
        return Rejected([Unknown]);
      }
      var refusals := Refusals(read.value, request, checkedAt, fold);
      if refusals != [] {
        return Rejected(refusals);
      }
      Interfere(between);
      var marked := MarkUsed(request.token, request.trigger, request.pr, markedAt);
      match marked
      case Used(item) => answer := Accepted(Payload(request.token, item.pinned, item.metadata, item.birth));
      case NotPublished => answer := Rejected([NotReady]);
      case Refused => answer := Rejected([Conflict]);
    }
  }

  /** Undisturbed, a confirmation that follows another one for the same token is refused. */
  lemma SecondConfirmRefused(items: Items, first: Request, second: Request, t0: int, t1: int, t2: int, t3: int, fold: string -> string)
    requires first.token in items && first.token == second.token
    requires Answer(Some(items[first.token]), items, first, t0, t1, fold).Accepted?
    ensures var after := items[first.token := items[first.token].(used := true)];
            Answer(Some(after[first.token]), after, second, t2, t3, fold).Rejected?
  {}

  /** Confirming and withdrawing exclude each other: whichever comes first, the other finds nothing to do. */
  lemma ConfirmExcludesWithdraw(items: Items, token: string, trigger: string, pr: int, now: int)
    ensures MarkedBy(items, token, trigger, pr, now).Used? ==>
              var after := items[token := items[token].(used := true)]; !(token in after && !after[token].used)
    ensures token in items && !items[token].used ==> MarkedBy(items - {token}, token, trigger, pr, now) == Refused
  {}

  // ---------------------------------------------------------------------------------------------
  // The stored form
  // ---------------------------------------------------------------------------------------------

  datatype Field =
    | Token | TriggerId | PrNumber | Action | SourceRunId | Folders | CommitHash | FolderPins | ExpiresAt | UsedFlag
    | PipelineName | StepIndex | StepCount | PipelineHash | RequestedCommentId | RequestedCommentBody | IntentCommentId | IntentId

  datatype Value = Text(text: string) | Number(number: int) | Flag(flag: bool) | Texts(texts: seq<string>) | Pins(pins: seq<Pin>)

  /** A stored item: the value of each attribute it has. */
  type Document = Field -> Option<Value>

  datatype Record = Record(token: string, pinned: Pinned, metadata: Metadata, used: bool, intentId: Option<string>)

  function TextOf(value: Option<string>): Option<Value> { if value.Some? then Some(Text(value.value)) else None }

  function NumberOf(value: Option<int>): Option<Value> { if value.Some? then Some(Number(value.value)) else None }

  /** Optional parts are stored only when they are there. */
  function Stored(r: Record, field: Field): Option<Value> {
    match field
    case Token => Some(Text(r.token))
    case TriggerId => Some(Text(r.pinned.trigger))
    case PrNumber => Some(Number(r.pinned.pr))
    case Action => Some(Text(r.pinned.action))
    case SourceRunId => Some(Text(r.pinned.sourceRun))
    case Folders => Some(Texts(r.pinned.folders))
    case CommitHash => Some(Text(r.pinned.commit))
    case FolderPins => Some(Pins(r.pinned.pins))
    case ExpiresAt => Some(Number(r.pinned.expiresAt))
    case UsedFlag => Some(Flag(r.used))
    case PipelineName => TextOf(r.pinned.pipeline)
    case StepIndex => NumberOf(r.pinned.stepIndex)
    case StepCount => NumberOf(r.pinned.stepCount)
    case PipelineHash => TextOf(r.pinned.pipelineHash)
    case RequestedCommentId => NumberOf(r.metadata.requestId)
    case RequestedCommentBody => TextOf(r.metadata.requestBody)
    case IntentCommentId => NumberOf(r.metadata.intentId)
    case IntentId => TextOf(r.intentId)
  }

  function TextIn(value: Option<Value>): Option<string> { if value.Some? && value.value.Text? then Some(value.value.text) else None }

  function NumberIn(value: Option<Value>): Option<int> { if value.Some? && value.value.Number? then Some(value.value.number) else None }

  function MetadataFrom(doc: Document): Metadata {
    Metadata(NumberIn(doc(RequestedCommentId)), TextIn(doc(RequestedCommentBody)), NumberIn(doc(IntentCommentId)))
  }

  /** Every mandatory attribute must be there; missing folders and pins read as empty. */
  function PinnedFrom(doc: Document): Option<Pinned> {
    var trigger, pr, action := TextIn(doc(TriggerId)), NumberIn(doc(PrNumber)), TextIn(doc(Action));
    var source, commit, expires := TextIn(doc(SourceRunId)), TextIn(doc(CommitHash)), NumberIn(doc(ExpiresAt));
    if trigger.None? || pr.None? || action.None? || source.None? || commit.None? || expires.None? then None
    else
      Some(Pinned(trigger.value, pr.value, action.value, commit.value, source.value, TextsIn(doc(Folders)), PinsIn(doc(FolderPins)),
                  expires.value, TextIn(doc(PipelineName)), NumberIn(doc(StepIndex)), NumberIn(doc(StepCount)), TextIn(doc(PipelineHash))))
  }

  function TextsIn(value: Option<Value>): seq<string> { if value.Some? && value.value.Texts? then value.value.texts else [] }

  function PinsIn(value: Option<Value>): seq<Pin> { if value.Some? && value.value.Pins? then value.value.pins else [] }

  function FlagIn(value: Option<Value>): bool { value.Some? && value.value.Flag? && value.value.flag }

  function FromDocument(doc: Document): Option<Record> {
    var token, pinned := TextIn(doc(Token)), PinnedFrom(doc);
    if token.None? || pinned.None? then None
    else Some(Record(token.value, pinned.value, MetadataFrom(doc), FlagIn(doc(UsedFlag)), TextIn(doc(IntentId))))
  }

  lemma OptionalText(value: Option<string>)
    ensures TextIn(TextOf(value)) == value
  {}

  lemma OptionalNumber(value: Option<int>)
    ensures NumberIn(NumberOf(value)) == value
  {}

  lemma MandatoryValues(text: string, number: int, texts: seq<string>, pins: seq<Pin>, flag: bool)
    ensures TextIn(Some(Text(text))) == Some(text) && NumberIn(Some(Number(number))) == Some(number)
    ensures TextsIn(Some(Texts(texts))) == texts && PinsIn(Some(Pins(pins))) == pins && FlagIn(Some(Flag(flag))) == flag
  {}

  lemma MetadataRoundTrip(r: Record)
    ensures MetadataFrom(field => Stored(r, field)) == r.metadata
  {
    hide TextOf, NumberOf, TextIn, NumberIn;
    OptionalNumber(r.metadata.requestId);
    OptionalText(r.metadata.requestBody);
    OptionalNumber(r.metadata.intentId);
  }

  lemma PinnedRoundTrip(r: Record)
    ensures PinnedFrom(field => Stored(r, field)) == Some(r.pinned)
  {
    hide TextOf, NumberOf, TextIn, NumberIn, TextsIn, PinsIn, FlagIn;
    var p := r.pinned;
    MandatoryValues(p.trigger, p.pr, p.folders, p.pins, r.used);
    MandatoryValues(p.action, p.expiresAt, [], [], false);
    MandatoryValues(p.commit, 0, [], [], false);
    MandatoryValues(p.sourceRun, 0, [], [], false);
    OptionalText(p.pipeline);
    OptionalText(p.pipelineHash);
    OptionalNumber(p.stepIndex);
    OptionalNumber(p.stepCount);
  }

  /** A stored record reads back as it was, with every optional part present or absent as before. */
  lemma DocumentRoundTrip(r: Record)
    ensures FromDocument(field => Stored(r, field)) == Some(r)
  {
    hide TextOf, NumberOf, TextIn, NumberIn, TextsIn, PinsIn, FlagIn, PinnedFrom, MetadataFrom;
    PinnedRoundTrip(r);
    MetadataRoundTrip(r);
    MandatoryValues(r.token, 0, [], [], r.used);
    OptionalText(r.intentId);
  }
}
