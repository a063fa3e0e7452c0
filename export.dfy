/**
 * `composeAndSendVCards` and its three entry points, with the objects they
 * drive: the OBEX server's abort flag, the server operation and its output
 * stream, the entry composer and `HandlerForStringBuffer`. The composer's
 * entries, the failing stream steps and the other thread's abort requests
 * are fixed when these objects are made; every method is proved against
 * `ExportSpec.Export`.
 */
module VcardExport {
  import opened Wrappers
  import opened FilterMask
  import opened FilterSpec
  import opened VcardFilter
  import opened PhoneNumbers
  import opened WindowResolution
  import opened ExportSpec

  /**
   * `BluetoothPbapObexServer.sIsAborted`. Another thread raises it when the
   * client aborts; `abortRequests` holds the loop iterations before whose
   * check it does so.
   */
  class PbapObexServer {
    var isAborted: bool
    const abortRequests: set<nat>

    constructor (isAborted: bool, abortRequests: set<nat>)
      ensures this.isAborted == isAborted && this.abortRequests == abortRequests
    {
      this.isAborted := isAborted;
      this.abortRequests := abortRequests;
    }

    /** The read of `sIsAborted` before iteration `k`, after the other thread had its chance to raise it. */
    method Poll(k: nat) returns (aborted: bool)
      modifies this
      ensures aborted == (old(isAborted) || k in abortRequests)
      ensures isAborted == aborted
    {
      if k in abortRequests {
        isAborted := true;
      }
      aborted := isAborted;
    }

    /** `sIsAborted = false` */
    method Clear()
      modifies this
      ensures !isAborted
    {
      isAborted := false;
    }
  }

  /**
   * The `ServerOperation` of one GET: its `isAborted` flag and its output
   * stream. `openFails` says whether `openOutputStream` throws and
   * `failingWrites` which write attempts (numbered from 0) throw an
   * `IOException`; `written` is what reached the stream.
   */
  class ServerOperation {
    var isAborted: bool
    const openFails: bool
    const failingWrites: set<nat>
    var streamOpen: bool
    var written: seq<string>
    var attempts: nat
    var closed: bool

    constructor (openFails: bool, failingWrites: set<nat>)
      ensures this.openFails == openFails && this.failingWrites == failingWrites
      ensures Untouched(this)
    {
      this.openFails := openFails;
      this.failingWrites := failingWrites;
      isAborted, streamOpen, written, attempts, closed := false, false, [], 0, false;
    }

    /** `openOutputStream()`: the stream is open unless it throws. */
    method OpenOutputStream() returns (ok: bool)
      modifies this
      ensures ok == !openFails && streamOpen == ok
      ensures isAborted == old(isAborted) && written == old(written) && attempts == old(attempts)
      ensures closed == old(closed)
    {
      ok := !openFails;
      streamOpen := ok;
    }

    /** `outputStream.write(vCard.getBytes())`: attempt number `attempts` either reaches the stream or throws. */
    method Write(vCard: string) returns (ok: bool)
      requires streamOpen
      modifies this
      ensures ok == (old(attempts) !in failingWrites)
      ensures written == if ok then old(written) + [vCard] else old(written)
      ensures attempts == old(attempts) + 1
      ensures isAborted == old(isAborted) && streamOpen && closed == old(closed)
    {
      ok := attempts !in failingWrites;
      if ok {
        written := written + [vCard];
      }
      attempts := attempts + 1;
    }

    /** `BluetoothPbapObexServer.closeStream(outputStream, operation)`. */
    method Close()
      modifies this
      ensures closed
      ensures isAborted == old(isAborted) && streamOpen == old(streamOpen) && written == old(written)
      ensures attempts == old(attempts)
    {
      closed := true;
    }
  }

  /** An operation as the OBEX server hands it over: nothing opened, written or aborted yet. */
  ghost predicate Untouched(op: ServerOperation)
    reads op
  {
    !op.isAborted && !op.streamOpen && op.written == [] && op.attempts == 0 && !op.closed
  }

  /** The composer configuration: vCard 2.1 or 3.0, and `FLAG_REFRAIN_IMAGE_EXPORT`. */
  datatype VcardType = VcardType(v21: bool, refrainImage: bool)

  /**
   * The `VCardComposer` (contacts) or `BluetoothPbapCallLogComposer` (call
   * log): `entries` are what `createOneEntry` returns in turn for the
   * selection it is given (`None` for null), `initSucceeds` whether `init`
   * does.
   */
  class EntryComposer {
    const entries: seq<Option<string>>
    const initSucceeds: bool
    var vcardType: Option<VcardType>
    var translatesPauseWait: bool
    var query: Option<Query>
    var position: nat
    var terminated: bool

    constructor (entries: seq<Option<string>>, initSucceeds: bool)
      ensures this.entries == entries && this.initSucceeds == initSucceeds
      ensures Unused(this)
    {
      this.entries := entries;
      this.initSucceeds := initSucceeds;
      vcardType, translatesPauseWait, query, position, terminated := None, false, None, 0, false;
    }

    /** `BluetoothPbapUtils.createFilteredVCardComposer(mContext, vcardType, null)` */
    method SetVcardType(t: VcardType)
      modifies this
      ensures vcardType == Some(t)
      ensures translatesPauseWait == old(translatesPauseWait) && query == old(query)
      ensures position == old(position) && terminated == old(terminated)
    {
      vcardType := Some(t);
    }

    /** `setPhoneNumberTranslationCallback(...)`: numbers go through `PhoneNumbers.TranslatePhoneNumber`. */
    method SetPhoneNumberTranslationCallback()
      modifies this
      ensures translatesPauseWait
      ensures vcardType == old(vcardType) && query == old(query)
      ensures position == old(position) && terminated == old(terminated)
    {
      translatesPauseWait := true;
    }

    /** `init(uri, selection, null, sortOrder)`: the cursor is on the first entry. */
    method Init(q: Query) returns (ok: bool)
      modifies this
      ensures ok == initSucceeds && query == Some(q) && position == 0
      ensures vcardType == old(vcardType) && translatesPauseWait == old(translatesPauseWait)
      ensures terminated == old(terminated)
    {
      query := Some(q);
      position := 0;
      ok := initSucceeds;
    }

    /** `isAfterLast()` */
    predicate IsAfterLast()
      reads this
    {
      position >= |entries|
    }

    /** `createOneEntry()`: the entry under the cursor, which then moves on. */
    method CreateOneEntry() returns (vcard: Option<string>)
      requires !IsAfterLast()
      modifies this
      ensures vcard == entries[old(position)] && position == old(position) + 1
      ensures vcardType == old(vcardType) && translatesPauseWait == old(translatesPauseWait)
      ensures query == old(query) && terminated == old(terminated)
    {
      vcard := entries[position];
      position := position + 1;
    }

    /** `terminate()` */
    method Terminate()
      modifies this
      ensures terminated
      ensures vcardType == old(vcardType) && translatesPauseWait == old(translatesPauseWait)
      ensures query == old(query) && position == old(position)
    {
      terminated := true;
    }
  }

  /** A composer as created for one request: not configured, initialised or terminated. */
  ghost predicate Unused(c: EntryComposer)
    reads c
  {
    c.vcardType.None? && !c.translatesPauseWait && c.query.None? && c.position == 0 && !c.terminated
  }

  /** `HandlerForStringBuffer`: emits vCards to the operation's output stream. */
  class HandlerForStringBuffer {
    const operation: ServerOperation
    const phoneOwnVCard: Option<string>

    constructor (op: ServerOperation, ownerVCard: Option<string>)
      ensures operation == op && phoneOwnVCard == ownerVCard
    {
      operation := op;
      phoneOwnVCard := ownerVCard;
    }

    /** `write(vCard)`: false for a null vCard or a failed write. */
    method Write(vCard: Option<string>) returns (ok: bool)
      requires operation.streamOpen
      modifies operation
      ensures vCard.None? ==> !ok && operation.written == old(operation.written)
                              && operation.attempts == old(operation.attempts)
      ensures vCard.Some? ==> ok == (old(operation.attempts) !in operation.failingWrites)
                              && operation.attempts == old(operation.attempts) + 1
                              && operation.written == if ok then old(operation.written) + [vCard.value]
                                                      else old(operation.written)
      ensures operation.isAborted == old(operation.isAborted) && operation.streamOpen
      ensures operation.closed == old(operation.closed)
    {
      ok := false;
      if vCard.Some? {
        ok := operation.Write(vCard.value);
      }
    }

    /** `onInit(context)`: open the stream, then write the owner vCard if there is one. */
    method OnInit() returns (ok: bool)
      modifies operation
      ensures operation.streamOpen == !operation.openFails
      ensures ok == (!operation.openFails
                     && (phoneOwnVCard.None? || old(operation.attempts) !in operation.failingWrites))
      ensures operation.attempts
           == old(operation.attempts) + if !operation.openFails && phoneOwnVCard.Some? then 1 else 0
      ensures operation.written
           == old(operation.written) + if ok && phoneOwnVCard.Some? then [phoneOwnVCard.value] else []
      ensures operation.isAborted == old(operation.isAborted) && operation.closed == old(operation.closed)
    {
      ok := operation.OpenOutputStream();
      if !ok {
        return;
      }
      if phoneOwnVCard.Some? {
        ok := Write(phoneOwnVCard);
      }
    }

    /** `onEntryCreated(vcard)` */
    method OnEntryCreated(vcard: string) returns (ok: bool)
      requires operation.streamOpen
      modifies operation
      ensures ok == (old(operation.attempts) !in operation.failingWrites)
      ensures operation.attempts == old(operation.attempts) + 1
      ensures operation.written == if ok then old(operation.written) + [vcard] else old(operation.written)
      ensures operation.isAborted == old(operation.isAborted) && operation.streamOpen
      ensures operation.closed == old(operation.closed)
    {
      ok := Write(Some(vcard));
    }

    /** `onTerminate()`: `closeStream`, whose result is only logged. */
    method OnTerminate()
      modifies operation
      ensures operation.closed
      ensures operation.isAborted == old(operation.isAborted) && operation.streamOpen == old(operation.streamOpen)
      ensures operation.written == old(operation.written) && operation.attempts == old(operation.attempts)
    {
      operation.Close();
    }
  }

  /** The environment a run meets, read off its objects; `flag` is the abort flag when the run starts. */
  function EnvironmentOf(op: ServerOperation, server: PbapObexServer, composer: EntryComposer, flag: bool): Environment {
    Environment(composer.entries, composer.initSucceeds, op.openFails, op.failingWrites, server.abortRequests, flag)
  }

  /** The objects show the visible effects `r` of a run. */
  ghost predicate Shows(r: Run, op: ServerOperation, server: PbapObexServer, composer: EntryComposer)
    reads op, server, composer
  {
    && op.written == r.written && op.isAborted == r.opAborted && server.isAborted == r.flag
    && composer.position == r.pulled && op.streamOpen == r.streamOpened
    && composer.terminated == r.terminated && op.closed == r.terminated
  }

  /**
   * `composeAndSendVCards(op, selection, vcardType21, ownerVCard, isContacts,
   * ignorefilter, filter)`. The source writes the contacts and the call-log
   * branches out separately; they differ only in the filter, the
   * composer's configuration and the handling of a failed write, and run
   * here as one method. `Threw` is the exception `setFilter` raises.
   */
  method ComposeAndSendVCards(op: ServerOperation, server: PbapObexServer, composer: EntryComposer,
                              selection: Query, vcardType21: bool, ownerVCard: Option<string>,
                              isContacts: bool, ignorefilter: bool, filter: Option<seq<Byte>>)
    returns (outcome: Outcome)
    requires Untouched(op) && Unused(composer)
    modifies op, server, composer
    ensures var req := Request(isContacts, vcardType21, ignorefilter, filter, ownerVCard);
      var r := Export(req, EnvironmentOf(op, server, composer, old(server.isAborted)));
      && outcome == r.outcome && Shows(r, op, server, composer)
      && (outcome != Threw ==> composer.query == Some(selection))
      && (isContacts && outcome != Threw ==>
            composer.vcardType == Some(VcardType(vcardType21, !RunFlags(req).photo)) && composer.translatesPauseWait)
  {
    var req := Request(isContacts, vcardType21, ignorefilter, filter, ownerVCard);
    var vcardfilter: FilterVcard? := null;
    if isContacts {
      var f := new FilterVcard();
      if !ignorefilter {
        var thrown := f.SetFilter(filter);
        if thrown {
          return Threw;
        }
      }
      vcardfilter := f;
      composer.SetVcardType(VcardType(vcardType21, !f.IsPhotoEnabled()));
      composer.SetPhoneNumberTranslationCallback();
    }
    var buffer := new HandlerForStringBuffer(op, ownerVCard);
    var code := RunComposer(op, server, composer, buffer, vcardfilter, req, selection);
    outcome := Responded(code);
  }

  /**
   * The `try`/`finally` of `composeAndSendVCards`, once the filter is set:
   * `composer.init(...) || buffer.onInit(...)`, the loop, then
   * `composer.terminate()` and `buffer.onTerminate()` on every way out.
   */
  method RunComposer(op: ServerOperation, server: PbapObexServer, composer: EntryComposer,
                     buffer: HandlerForStringBuffer, vcardfilter: FilterVcard?, req: Request, selection: Query)
    returns (code: int)
    requires !FilterThrows(req) && buffer.operation == op && buffer.phoneOwnVCard == req.ownerVCard
    requires req.isContacts ==> vcardfilter != null && vcardfilter.Flags() == RunFlags(req)
    requires Untouched(op) && composer.position == 0 && !composer.terminated
    modifies op, server, composer
    ensures var r := Export(req, EnvironmentOf(op, server, composer, old(server.isAborted)));
      Responded(code) == r.outcome && Shows(r, op, server, composer)
    ensures composer.query == Some(selection)
    ensures composer.vcardType == old(composer.vcardType) && composer.translatesPauseWait == old(composer.translatesPauseWait)
  {
    ghost var env := EnvironmentOf(op, server, composer, server.isAborted);
    var ok := composer.Init(selection);
    if ok {
      ok := buffer.OnInit();
    }
    if ok {
      assert op.attempts == |OwnerWritten(req)| && op.written == OwnerWritten(req);
      code := SendEntries(op, server, composer, buffer, vcardfilter, req, LoopFor(req, env));
    } else {
      code := OBEX_HTTP_INTERNAL_ERROR;
    }
    composer.Terminate();
    buffer.OnTerminate();
  }

  /**
   * The `while (!composer.isAfterLast())` loop: check the abort flag, pull
   * one entry, filter and strip it (contacts), hand it to the buffer. A
   * failed write ends a contacts run and is ignored for the call log.
   */
  method SendEntries(op: ServerOperation, server: PbapObexServer, composer: EntryComposer,
                     buffer: HandlerForStringBuffer, vcardfilter: FilterVcard?, req: Request,
                     ghost inp: LoopInput)
    returns (code: int)
    requires !FilterThrows(req) && buffer.operation == op
    requires req.isContacts ==> vcardfilter != null && vcardfilter.Flags() == RunFlags(req)
    requires inp == LoopInput(req.isContacts, Outgoing(req, RunFlags(req), composer.entries),
                              op.failingWrites, server.abortRequests)
    requires op.streamOpen && !op.isAborted && composer.position == 0
    modifies op, server, composer
    ensures var r := EntryLoop(inp, 0, old(op.attempts), old(op.written), old(server.isAborted));
      && Responded(code) == r.outcome && op.written == r.written && op.isAborted == r.opAborted
      && server.isAborted == r.flag && composer.position == r.pulled && op.streamOpen
    ensures op.closed == old(op.closed) && composer.terminated == old(composer.terminated)
    ensures composer.query == old(composer.query) && composer.vcardType == old(composer.vcardType)
    ensures composer.translatesPauseWait == old(composer.translatesPauseWait)
  {
    ghost var target := EntryLoop(inp, 0, op.attempts, op.written, server.isAborted);
    while !composer.IsAfterLast()
      invariant composer.position <= |composer.entries| && op.streamOpen && !op.isAborted
      invariant EntryLoop(inp, composer.position, op.attempts, op.written, server.isAborted) == target
      invariant op.closed == old(op.closed) && composer.terminated == old(composer.terminated)
      invariant composer.query == old(composer.query) && composer.vcardType == old(composer.vcardType)
      invariant composer.translatesPauseWait == old(composer.translatesPauseWait)
      decreases |composer.entries| - composer.position
    {
      var stop;
      stop, code := SendOne(op, server, composer, buffer, vcardfilter, req, inp);
      if stop {
        return;
      }
    }
    code := OBEX_HTTP_OK;
  }

  /**
   * One turn of the loop. `stop` says whether it left the loop (abort, null
   * entry, failed contacts write), `code` what the method then returns; the
   * rest of the run from here is unchanged when it did not.
   */
  method SendOne(op: ServerOperation, server: PbapObexServer, composer: EntryComposer,
                 buffer: HandlerForStringBuffer, vcardfilter: FilterVcard?, req: Request,
                 ghost inp: LoopInput)
    returns (stop: bool, code: int)
    requires !FilterThrows(req) && buffer.operation == op
    requires req.isContacts ==> vcardfilter != null && vcardfilter.Flags() == RunFlags(req)
    requires inp == LoopInput(req.isContacts, Outgoing(req, RunFlags(req), composer.entries),
                              op.failingWrites, server.abortRequests)
    requires op.streamOpen && !op.isAborted && !composer.IsAfterLast()
    modifies op, server, composer
    ensures composer.position <= |composer.entries| && op.streamOpen
    ensures !stop ==> !op.isAborted && composer.position == old(composer.position) + 1
    ensures EntryLoop(inp, old(composer.position), old(op.attempts), old(op.written), old(server.isAborted))
         == if stop then Run(Responded(code), op.written, op.isAborted, server.isAborted, composer.position, true, true)
            else EntryLoop(inp, composer.position, op.attempts, op.written, server.isAborted)
    ensures op.closed == old(op.closed) && composer.terminated == old(composer.terminated)
    ensures composer.query == old(composer.query) && composer.vcardType == old(composer.vcardType)
    ensures composer.translatesPauseWait == old(composer.translatesPauseWait)
  {
    var aborted := server.Poll(composer.position);
    if aborted {
      op.isAborted := true;
      server.Clear();
      return true, OBEX_HTTP_OK;
    }
    stop, code := PullEntry(op, composer, buffer, vcardfilter, req, inp);
  }

  /**
   * The rest of a loop turn once the abort flag was found down: pull an
   * entry, stop on null, prepare a contact entry, hand it to the buffer and
   * stop on a failed contacts write.
   */
  method PullEntry(op: ServerOperation, composer: EntryComposer, buffer: HandlerForStringBuffer,
                   vcardfilter: FilterVcard?, req: Request, ghost inp: LoopInput)
    returns (stop: bool, code: int)
    requires !FilterThrows(req) && buffer.operation == op
    requires req.isContacts ==> vcardfilter != null && vcardfilter.Flags() == RunFlags(req)
    requires inp.checkWrites == req.isContacts && inp.failingWrites == op.failingWrites
    requires inp.outgoing == Outgoing(req, RunFlags(req), composer.entries)
    requires op.streamOpen && !composer.IsAfterLast() && composer.position !in inp.abortRequests
    modifies op, composer
    ensures composer.position == old(composer.position) + 1 && op.streamOpen
    ensures op.isAborted == old(op.isAborted) && op.closed == old(op.closed)
    ensures EntryLoop(inp, old(composer.position), old(op.attempts), old(op.written), false)
         == if stop then Run(Responded(code), op.written, false, false, composer.position, true, true)
            else EntryLoop(inp, composer.position, op.attempts, op.written, false)
    ensures composer.terminated == old(composer.terminated) && composer.query == old(composer.query)
    ensures composer.vcardType == old(composer.vcardType)
    ensures composer.translatesPauseWait == old(composer.translatesPauseWait)
  {
    ghost var k := composer.position;
    ghost var attempts := op.attempts;
    ghost var written := op.written;
    var entry := composer.CreateOneEntry();
    if entry.None? {
      return true, OBEX_HTTP_INTERNAL_ERROR;
    }
    var vcard := entry.value;
    if req.isContacts {
      vcard := PrepareEntry(vcard, vcardfilter, req);
    }
    assert inp.outgoing[k] == Some(vcard);
    var ok := buffer.OnEntryCreated(vcard);
    stop, code := req.isContacts && !ok, OBEX_HTTP_INTERNAL_ERROR;
    if !stop {
      LoopStep(inp, k, attempts, written, false);
    }
  }

  /** A contact entry on its way out: `applyFilter` unless `ignorefilter`, then `StripTelephoneNumber`. */
  method PrepareEntry(raw: string, vcardfilter: FilterVcard?, req: Request) returns (vcard: string)
    requires req.isContacts && !FilterThrows(req)
    requires vcardfilter != null && vcardfilter.Flags() == RunFlags(req)
    ensures vcard == Prepared(req, RunFlags(req), raw)
  {
    vcard := raw;
    if !req.ignorefilter {
      vcard := vcardfilter.ApplyFilter(vcard, req.vcardType21);
    }
    vcard := StripTelephoneNumber(vcard);
  }

  /**
   * `composeAndSendCallLogVcards`: `typeSelection` is what
   * `createSelectionPara(type)` returned and `ids` the `_ID` column of the
   * call-log query (`None` when it failed). A bad window is refused before
   * anything is touched.
   */
  method ComposeAndSendCallLogVcards(op: ServerOperation, server: PbapObexServer, composer: EntryComposer,
                                     typeSelection: Option<string>, ids: Option<seq<int>>,
                                     startPoint: int, endPoint: int, vcardType21: bool,
                                     ignorefilter: bool, filter: Option<seq<Byte>>)
    returns (outcome: Outcome)
    requires WindowFits(startPoint, endPoint, ids)
    requires Untouched(op) && Unused(composer)
    modifies op, server, composer
    ensures BadWindow(startPoint, endPoint) ==>
      outcome == Responded(OBEX_HTTP_INTERNAL_ERROR) && unchanged(op, server, composer)
    ensures !BadWindow(startPoint, endPoint) ==>
      var r := Export(Request(false, vcardType21, ignorefilter, filter, None),
                      EnvironmentOf(op, server, composer, old(server.isAborted)));
      && outcome == r.outcome && Shows(r, op, server, composer)
      && composer.query == Some(ResolveCallLogWindow(startPoint, endPoint, typeSelection, ids).query)
  {
    var resolution := ResolveCallLogWindow(startPoint, endPoint, typeSelection, ids);
    if resolution.Reject? {
      return Responded(OBEX_HTTP_INTERNAL_ERROR);
    }
    outcome := ComposeAndSendVCards(op, server, composer, resolution.query, vcardType21, None,
                                    false, ignorefilter, filter);
  }

  /** `composeAndSendPhonebookVcards`: `ids` is the `_ID` column of the visible contacts by `_ID`. */
  method ComposeAndSendPhonebookVcards(op: ServerOperation, server: PbapObexServer, composer: EntryComposer,
                                       ids: Option<seq<int>>, startPoint: int, endPoint: int,
                                       vcardType21: bool, ownerVCard: Option<string>,
                                       ignorefilter: bool, filter: Option<seq<Byte>>)
    returns (outcome: Outcome)
    requires WindowFits(startPoint, endPoint, ids)
    requires Untouched(op) && Unused(composer)
    modifies op, server, composer
    ensures BadWindow(startPoint, endPoint) ==>
      outcome == Responded(OBEX_HTTP_INTERNAL_ERROR) && unchanged(op, server, composer)
    ensures !BadWindow(startPoint, endPoint) ==>
      var r := Export(Request(true, vcardType21, ignorefilter, filter, ownerVCard),
                      EnvironmentOf(op, server, composer, old(server.isAborted)));
      && outcome == r.outcome && Shows(r, op, server, composer)
      && (outcome != Threw ==> composer.query == Some(ResolvePhonebookWindow(startPoint, endPoint, ids).query))
  {
    var resolution := ResolvePhonebookWindow(startPoint, endPoint, ids);
    if resolution.Reject? {
      return Responded(OBEX_HTTP_INTERNAL_ERROR);
    }
    outcome := ComposeAndSendVCards(op, server, composer, resolution.query, vcardType21, ownerVCard,
                                    true, ignorefilter, filter);
  }

  /**
   * `composeAndSendPhonebookOneVcard`: `ids` is the `_ID` column of the
   * visible contacts in the order `order` asks for.
   */
  method ComposeAndSendPhonebookOneVcard(op: ServerOperation, server: PbapObexServer, composer: EntryComposer,
                                         ids: Option<seq<int>>, offset: int, order: Order,
                                         vcardType21: bool, ownerVCard: Option<string>,
                                         ignorefilter: bool, filter: Option<seq<Byte>>)
    returns (outcome: Outcome)
    requires OffsetFits(offset, order, ids)
    requires Untouched(op) && Unused(composer)
    modifies op, server, composer
    ensures offset < 1 || order.Unsupported? ==>
      outcome == Responded(OBEX_HTTP_INTERNAL_ERROR) && unchanged(op, server, composer)
    ensures !(offset < 1 || order.Unsupported?) ==>
      var r := Export(Request(true, vcardType21, ignorefilter, filter, ownerVCard),
                      EnvironmentOf(op, server, composer, old(server.isAborted)));
      && outcome == r.outcome && Shows(r, op, server, composer)
      && (outcome != Threw ==> composer.query == Some(ResolveOneVcard(offset, order, ids).query))
  {
    var resolution := ResolveOneVcard(offset, order, ids);
    if resolution.Reject? {
      return Responded(OBEX_HTTP_INTERNAL_ERROR);
    }
    outcome := ComposeAndSendVCards(op, server, composer, resolution.query, vcardType21, ownerVCard,
                                    true, ignorefilter, filter);
  }
}
