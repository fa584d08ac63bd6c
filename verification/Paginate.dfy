/**
 The page drain: the producer goroutine of pkg/brainapi/iterators.go, an
 unbuffered item channel, a one-slot error channel, and the consumer of
 cmd/brainapi/handler.go.
 */
module Paginate {
  import opened Wrappers

  datatype Error = ContextDone | FetchError(code: int)

  datatype Page<T> = Failed(error: Error) | Page(items: seq<T>, done: bool)

  predicate Answers<T(==)>(p: Page<T>, L: seq<T>, o: nat) {
    p.Page? ==>
      if o < |L| then
        && p.items != [] && o + |p.items| <= |L|
        && p.items == L[o..o + |p.items|]
        && (p.done <==> o + |p.items| == |L|)
      else
        p.items == []
  }

  /**
   The server holds L. At an offset inside L it answers a non-empty slice of L
   starting there, and says `done` exactly on the last one; past the end it
   answers an empty page. Any fetch may fail instead.
   */
  ghost predicate Serves<T(!new)>(fetch: nat -> Page<T>, L: seq<T>) {
    forall o: nat :: Answers(fetch(o), L, o)
  }

  /** A server that answers L in pages of a fixed size. */
  function PageOf<T>(L: seq<T>, size: nat, o: nat): Page<T> {
    if o >= |L| then Page([], true)
    else if o + size >= |L| then Page(L[o..], true)
    else Page(L[o..o + size], false)
  }

  /** There is such a server for every list and page size. */
  lemma ServerExists<T(!new)>(L: seq<T>, size: nat)
    requires size > 0
    ensures Serves((o: nat) => PageOf(L, size, o), L)
  {
    forall o: nat
      ensures Answers(PageOf(L, size, o), L, o)
    {
    }
  }

  /** How ListAlphasAll tells the last page: there is no next link. */
  predicate NoNext(next: Option<string>) {
    next == None || next == Some("")
  }

  /** How DataFieldsAll tells it: the cursor has reached the total count. */
  predicate CountReached(offset: nat, got: nat, count: int) {
    offset + got >= count
  }

  /** Both rules report the end as `Answers` wants it, given a truthful link or count. */
  lemma EndRulesAgree<T>(L: seq<T>, o: nat, items: seq<T>, next: Option<string>)
    requires o < |L| && items != [] && o + |items| <= |L| && items == L[o..o + |items|]
    requires next.Some? && next.value != "" <==> o + |items| < |L|
    ensures Answers(Page(items, NoNext(next)), L, o)
    ensures Answers(Page(items, CountReached(o, |items|, |L|)), L, o)
  {
  }

  function Rest<T>(L: seq<T>, start: nat): seq<T> {
    if start <= |L| then L[start..] else []
  }

  function Upto<T>(L: seq<T>, start: nat, o: nat): seq<T>
    requires start <= o
  {
    if o <= |L| then L[start..o] else []
  }

  lemma UptoIsPrefix<T>(L: seq<T>, start: nat, o: nat)
    requires start <= o
    ensures Upto(L, start, o) <= Rest(L, start)
    ensures o <= |L| ==> |Upto(L, start, o)| == o - start
  {
    if o <= |L| {
      assert L[start..o] == L[start..][..o - start];
    }
  }

  /** The pages before o and the first k items of the page at o are the head of what is left. */
  lemma PageIsPrefix<T>(L: seq<T>, start: nat, o: nat, page: Page<T>, k: nat)
    requires start <= o && (o <= |L| || o == start)
    requires page.Page? && Answers(page, L, o) && k <= |page.items|
    ensures Upto(L, start, o) + page.items[..k] <= Rest(L, start)
    ensures k == |page.items| && o < |L| ==> Upto(L, start, o) + page.items[..k] == Upto(L, start, o + k)
    ensures k == |page.items| && (page.done || k == 0) ==> Upto(L, start, o) + page.items[..k] == Rest(L, start)
  {
    if o < |L| {
      assert Upto(L, start, o) + page.items[..k] == Upto(L, start, o + k);
      UptoIsPrefix(L, start, o + k);
    }
  }

  /** The inner loop: one send per item, each of which may find the context ended instead. */
  method SendItems<T>(items: seq<T>, before: seq<T>) returns (emitted: seq<T>, k: nat)
    ensures k <= |items| && emitted == before + items[..k]
  {
    emitted, k := before, 0;
    while k < |items|
      invariant k <= |items| && emitted == before + items[..k]
    {
      var cancelled: bool := *;
      if cancelled {
        return;
      }
      emitted := emitted + [items[k]];
      k := k + 1;
    }
  }

  /**
   The producer on its own, with the context ended at an arbitrary send: what it
   emitted is a prefix of L[offset..], all of it when there was no error, and
   exactly the pages before the failed one when a fetch failed.
   */
  method PaginateAll<T(!new, ==)>(offset: nat, fetch: nat -> Page<T>, ghost L: seq<T>)
    returns (emitted: seq<T>, err: Option<Error>, at: nat)
    requires Serves(fetch, L)
    ensures var rest := if offset <= |L| then L[offset..] else [];
            match err
            case None => emitted == rest
            case Some(ContextDone) => emitted <= rest
            case Some(e) =>
              && fetch(at) == Failed(e) && (at < |L| || at == offset)
              && offset <= at && |emitted| == at - offset && emitted <= rest
  {
    emitted, at := [], offset;
    while true
      invariant offset <= at && (at < |L| || at == offset)
      invariant emitted == Upto(L, offset, at)
      decreases if at <= |L| then |L| - at else 0
    {
      assert Answers(fetch(at), L, at);
      UptoIsPrefix(L, offset, at);
      var page := fetch(at);
      if page.Failed? {
        return emitted, Some(page.error), at;
      }
      var k;
      emitted, k := SendItems(page.items, emitted);
      PageIsPrefix(L, offset, at, page, k);
      if k < |page.items| {
        return emitted, Some(ContextDone), at;
      }
      if page.done || |page.items| == 0 {
        return emitted, None, at;
      }
      at := at + |page.items|;
    }
  }

  // ---- producer and consumer together ----

  datatype Producer<T> =
    | Fetching(offset: nat)
    | Sending(offset: nat, items: seq<T>, done: bool, k: nat)   // items[..k] are delivered
    | Failing(error: Error)                                    // about to put the error in its slot
    | ClosingErrs
    | ClosingOut
    | Stopped

  datatype Consumer<T> =
    | Ranging                         // for it := range items
    | Receiving                       // <-errs
    | Returned(result: Drained<T>)

  datatype Drained<T> = Items(items: seq<T>) | Wrapped(error: Error)

  datatype State<T> = State(
    producer: Producer<T>,
    emitted: seq<T>,               // everything the producer has sent
    errsSlot: Option<Error>,
    sent: nat,                     // errors ever sent
    errsClosed: bool,
    outClosed: bool,
    consumer: Consumer<T>,
    out: seq<T>,                   // drainAll's slice
    cancelled: bool)

  function Initial<T>(offset: nat): State<T> {
    State(Fetching(offset), [], None, 0, false, false, Ranging, [], false)
  }

  datatype Action =
    | Cancel
    | Fetch | Send | SeeCancel | Advance | PutError | CloseErrs | CloseOut   // the producer's
    | SeeClosed | TakeError                                                  // the consumer's

  predicate Enabled<T>(s: State<T>, a: Action) {
    match a
    case Cancel => !s.cancelled
    case Fetch => s.producer.Fetching?
    case Send => s.producer.Sending? && s.producer.k < |s.producer.items| && s.consumer.Ranging?
    case SeeCancel => s.producer.Sending? && s.producer.k < |s.producer.items| && s.cancelled
    case Advance => s.producer.Sending? && s.producer.k >= |s.producer.items|
    case PutError => s.producer.Failing? && s.errsSlot.None?
    case CloseErrs => s.producer.ClosingErrs?
    case CloseOut => s.producer.ClosingOut?
    case SeeClosed => s.consumer.Ranging? && s.outClosed
    case TakeError => s.consumer.Receiving? && (s.errsSlot.Some? || s.errsClosed)
  }

  function Next<T>(fetch: nat -> Page<T>, s: State<T>, a: Action): State<T>
    requires Enabled(s, a)
  {
    match a
    case Cancel => s.(cancelled := true)
    case Fetch =>
      (match fetch(s.producer.offset)
       case Failed(e) => s.(producer := Failing(e))
       case Page(items, done) => s.(producer := Sending(s.producer.offset, items, done, 0)))
    case Send =>
      var it := s.producer.items[s.producer.k];
      s.(producer := s.producer.(k := s.producer.k + 1), emitted := s.emitted + [it], out := s.out + [it])
    case SeeCancel => s.(producer := Failing(ContextDone))
    case Advance =>
      if s.producer.done || |s.producer.items| == 0 then s.(producer := ClosingErrs)
      else s.(producer := Fetching(s.producer.offset + |s.producer.items|))
    case PutError => s.(errsSlot := Some(s.producer.error), sent := s.sent + 1, producer := ClosingErrs)
    case CloseErrs => s.(errsClosed := true, producer := ClosingOut)
    case CloseOut => s.(outClosed := true, producer := Stopped)
    case SeeClosed => s.(consumer := Receiving)
    case TakeError =>
      if s.errsSlot.Some? then s.(errsSlot := None, consumer := Returned(Wrapped(s.errsSlot.value)))
      else s.(consumer := Returned(Items(s.out)))
  }

  ghost predicate Run<T>(fetch: nat -> Page<T>, s: State<T>, actions: seq<Action>, last: State<T>)
    decreases |actions|
  {
    if actions == [] then s == last
    else Enabled(s, actions[0]) && Run(fetch, Next(fetch, s, actions[0]), actions[1..], last)
  }

  /** The control state: who has closed what, and where the one error is. */
  predicate Control<T(==)>(s: State<T>) {
    && s.emitted == s.out
    && (s.errsClosed <==> s.producer.ClosingOut? || s.producer.Stopped?)
    && (s.outClosed <==> s.producer.Stopped?)
    && (!s.consumer.Ranging? ==> s.outClosed)
    && s.sent <= 1
    && (s.producer.Fetching? || s.producer.Sending? || s.producer.Failing? ==> s.sent == 0)
    && (s.errsSlot.Some? ==> s.sent == 1)
    && (!s.consumer.Returned? && s.sent == 1 ==> s.errsSlot.Some?)
    && (s.consumer.Returned? ==>
          match s.consumer.result
          case Items(items) => s.sent == 0 && items == s.emitted
          case Wrapped(_) => s.sent == 1)
  }

  lemma StepKeepsControl<T>(fetch: nat -> Page<T>, s: State<T>, a: Action)
    requires Control(s) && Enabled(s, a)
    ensures Control(Next(fetch, s, a))
  {
  }

  /** Whatever the server does, some step other than a cancellation is enabled until both sides have finished. */
  lemma NeverStuck<T>(s: State<T>) returns (a: Action)
    requires Control(s) && !(s.producer.Stopped? && s.consumer.Returned?)
    ensures a != Cancel && Enabled(s, a)
  {
    match s.producer
    case Fetching(_) => a := Fetch;
    case Sending(_, items, _, k) => a := if k < |items| then Send else Advance;
    case Failing(_) => a := PutError;
    case ClosingErrs => a := CloseErrs;
    case ClosingOut => a := CloseOut;
    case Stopped => a := if s.consumer.Ranging? then SeeClosed else TakeError;
  }

  /** For any server and schedule: no deadlock, at most one error, and the result is what was emitted or that error. */
  lemma {:induction false} DrainIsSafe<T>(fetch: nat -> Page<T>, s: State<T>, actions: seq<Action>,
                                          last: State<T>)
    requires Control(s) && Run(fetch, s, actions, last)
    ensures Control(last)
    ensures last.sent <= 1
    ensures !(last.producer.Stopped? && last.consumer.Returned?) ==> exists a :: a != Cancel && Enabled(last, a)
    ensures last.consumer.Returned? ==>
              match last.consumer.result
              case Items(items) => last.sent == 0 && items == last.emitted
              case Wrapped(_) => last.sent == 1
    decreases |actions|
  {
    if actions == [] {
      if !(last.producer.Stopped? && last.consumer.Returned?) {
        var a := NeverStuck(last);
      }
    } else {
      StepKeepsControl(fetch, s, actions[0]);
      DrainIsSafe(fetch, Next(fetch, s, actions[0]), actions[1..], last);
    }
  }

  // ---- against a server that serves L ----

  /** The error is the end of the context, or the one of the fetch right after what was emitted. */
  predicate Caused<T(!new, ==)>(fetch: nat -> Page<T>, L: seq<T>, start: nat, s: State<T>, e: Error) {
    || (e == ContextDone && s.cancelled)
    || (fetch(start + |s.emitted|) == Failed(e) && (start + |s.emitted| < |L| || s.emitted == []))
  }

  /** What has been emitted so far, and why there is an error. */
  ghost predicate Exact<T(!new)>(fetch: nat -> Page<T>, L: seq<T>, start: nat, s: State<T>) {
    && (s.producer.Failing? ==> Caused(fetch, L, start, s, s.producer.error))
    && (s.errsSlot.Some? ==> Caused(fetch, L, start, s, s.errsSlot.value))
    && (s.consumer.Returned? && s.consumer.result.Wrapped? ==> Caused(fetch, L, start, s, s.consumer.result.error))
    && match s.producer
       case Fetching(o) => start <= o && (o < |L| || o == start) && s.emitted == Upto(L, start, o)
       case Sending(o, items, done, k) =>
         && start <= o && k <= |items| && Answers(Page(items, done), L, o)
         && (o < |L| || o == start)
         && s.emitted == Upto(L, start, o) + items[..k]
       case Failing(_) => s.emitted <= Rest(L, start)
       case _ => s.emitted <= Rest(L, start) && (s.sent == 0 ==> s.emitted == Rest(L, start))
  }

  lemma FetchKeepsExact<T(!new)>(fetch: nat -> Page<T>, L: seq<T>, start: nat, s: State<T>)
    requires Serves(fetch, L) && Exact(fetch, L, start, s) && s.producer.Fetching?
    ensures Exact(fetch, L, start, Next(fetch, s, Fetch))
  {
    var o := s.producer.offset;
    assert Answers(fetch(o), L, o);
    if fetch(o).Failed? {
      UptoIsPrefix(L, start, o);
    }
  }

  lemma SentIsPrefix<T>(L: seq<T>, start: nat, s: State<T>)
    requires s.producer.Sending? && s.producer.k <= |s.producer.items|
    requires var p := s.producer;
             && start <= p.offset && (p.offset < |L| || p.offset == start)
             && Answers(Page(p.items, p.done), L, p.offset)
             && s.emitted == Upto(L, start, p.offset) + p.items[..p.k]
    ensures s.emitted <= Rest(L, start)
  {
    var p := s.producer;
    PageIsPrefix(L, start, p.offset, Page(p.items, p.done), p.k);
  }

  lemma SendKeepsExact<T(!new)>(fetch: nat -> Page<T>, L: seq<T>, start: nat, s: State<T>)
    requires Control(s) && Exact(fetch, L, start, s) && Enabled(s, Send)
    ensures Exact(fetch, L, start, Next(fetch, s, Send))
  {
    var p := s.producer;
    assert p.items[..p.k + 1] == p.items[..p.k] + [p.items[p.k]];
  }

  lemma AdvanceKeepsExact<T(!new)>(fetch: nat -> Page<T>, L: seq<T>, start: nat, s: State<T>)
    requires Control(s) && Exact(fetch, L, start, s) && Enabled(s, Advance)
    ensures Exact(fetch, L, start, Next(fetch, s, Advance))
  {
    var p := s.producer;
    PageIsPrefix(L, start, p.offset, Page(p.items, p.done), p.k);
  }

  lemma SendingKeepsExact<T(!new)>(fetch: nat -> Page<T>, L: seq<T>, start: nat, s: State<T>, a: Action)
    requires Control(s) && Exact(fetch, L, start, s) && Enabled(s, a) && s.producer.Sending?
    ensures Exact(fetch, L, start, Next(fetch, s, a))
  {
    if a == Send {
      SendKeepsExact(fetch, L, start, s);
    } else if a == Advance {
      AdvanceKeepsExact(fetch, L, start, s);
    } else if a == SeeCancel {
      SentIsPrefix(L, start, s);
    }
  }

  lemma StepKeepsExact<T(!new)>(fetch: nat -> Page<T>, L: seq<T>, start: nat, s: State<T>, a: Action)
    requires Serves(fetch, L) && Control(s) && Exact(fetch, L, start, s) && Enabled(s, a)
    ensures Exact(fetch, L, start, Next(fetch, s, a))
  {
    if a == Fetch {
      FetchKeepsExact(fetch, L, start, s);
    } else if s.producer.Sending? {
      SendingKeepsExact(fetch, L, start, s, a);
    }
  }

  lemma {:induction false} RunKeepsExact<T(!new)>(fetch: nat -> Page<T>, L: seq<T>, start: nat, s: State<T>,
                                                  actions: seq<Action>, last: State<T>)
    requires Serves(fetch, L) && Control(s) && Exact(fetch, L, start, s) && Run(fetch, s, actions, last)
    ensures Exact(fetch, L, start, last) && Control(last)
    decreases |actions|
  {
    if actions == [] {
    } else {
      StepKeepsControl(fetch, s, actions[0]);
      StepKeepsExact(fetch, L, start, s, actions[0]);
      RunKeepsExact(fetch, L, start, Next(fetch, s, actions[0]), actions[1..], last);
    }
  }

  /**
   End to end: draining a server that serves L returns L[offset..] itself, each
   item once and in order, whenever it returns without an error; the error it
   returns otherwise is the end of the context, or that of the fetch at the first
   item not emitted, never of one past the end.
   */
  lemma DrainIsExact<T(!new)>(fetch: nat -> Page<T>, L: seq<T>, start: nat, actions: seq<Action>, last: State<T>)
    requires Serves(fetch, L) && Run(fetch, Initial(start), actions, last)
    ensures var rest := if start <= |L| then L[start..] else [];
            && last.emitted <= rest
            && (last.consumer.Returned? && last.consumer.result.Items? ==> last.consumer.result.items == rest)
    ensures last.consumer.Returned? ==>
              match last.consumer.result
              case Items(items) => items == last.emitted
              case Wrapped(e) =>
                || (e == ContextDone && last.cancelled)
                || (&& fetch(start + |last.emitted|) == Failed(e)
                    && (start + |last.emitted| < |L| || last.emitted == []))
  {
    var s: State<T> := Initial(start);
    assert Upto(L, start, start) == [];
    RunKeepsExact(fetch, L, start, s, actions, last);
    if last.producer.Fetching? {
      UptoIsPrefix(L, start, last.producer.offset);
    } else if last.producer.Sending? {
      SentIsPrefix(L, start, last);
    }
  }

  /** Without a failing fetch and a cancellation, a drain that can go no further has returned all of L[offset..]. */
  lemma DrainCompletes<T(!new)>(fetch: nat -> Page<T>, L: seq<T>, start: nat, actions: seq<Action>, last: State<T>)
    requires Serves(fetch, L) && Run(fetch, Initial(start), actions, last)
    requires (forall o: nat :: !fetch(o).Failed?) && !last.cancelled
    requires forall a :: a != Cancel ==> !Enabled(last, a)
    ensures last.consumer == Returned(Items(if start <= |L| then L[start..] else []))
  {
    DrainIsSafe(fetch, Initial(start), actions, last);
    DrainIsExact(fetch, L, start, actions, last);
  }

  // ---- termination ----

  function ProducerWork<T>(L: seq<T>, p: Producer<T>): nat {
    match p
    case Fetching(o) => 3 * Max0(|L| - o) + 12
    case Sending(o, items, _, k) =>
      if items == [] then 6 else 3 * Max0(|L| - o - |items|) + 13 + Max0(|items| - k)
    case Failing(_) => 5
    case ClosingErrs => 4
    case ClosingOut => 3
    case Stopped => 2
  }

  function ConsumerWork<T>(c: Consumer<T>): nat {
    match c
    case Ranging => 2
    case Receiving => 1
    case Returned(_) => 0
  }

  /** The drain makes progress: the distance |L| - offset shrinks page by page. */
  function Measure<T>(L: seq<T>, s: State<T>): nat {
    ProducerWork(L, s.producer) + ConsumerWork(s.consumer) + if s.cancelled then 0 else 1
  }

  lemma FetchShrinks<T(!new)>(fetch: nat -> Page<T>, L: seq<T>, s: State<T>)
    requires Serves(fetch, L) && s.producer.Fetching?
    ensures ProducerWork(L, Next(fetch, s, Fetch).producer) < ProducerWork(L, s.producer)
  {
    assert Answers(fetch(s.producer.offset), L, s.producer.offset);
  }

  lemma SendingShrinks<T(!new)>(fetch: nat -> Page<T>, L: seq<T>, start: nat, s: State<T>, a: Action)
    requires Exact(fetch, L, start, s) && Enabled(s, a) && s.producer.Sending?
    requires a == Send || a == SeeCancel || a == Advance
    ensures ProducerWork(L, Next(fetch, s, a).producer) < ProducerWork(L, s.producer)
  {
    assert Answers(Page(s.producer.items, s.producer.done), L, s.producer.offset);
  }

  lemma StepShrinks<T(!new)>(fetch: nat -> Page<T>, L: seq<T>, start: nat, s: State<T>, a: Action)
    requires Serves(fetch, L) && Exact(fetch, L, start, s) && Enabled(s, a)
    ensures Measure(L, Next(fetch, s, a)) < Measure(L, s)
  {
    match a
    case Fetch => FetchShrinks(fetch, L, s);
    case Send => SendingShrinks(fetch, L, start, s, a);
    case SeeCancel => SendingShrinks(fetch, L, start, s, a);
    case Advance => SendingShrinks(fetch, L, start, s, a);
    case _ =>
  }

  lemma {:induction false} DrainTerminates<T(!new)>(fetch: nat -> Page<T>, L: seq<T>, start: nat, s: State<T>,
                                                    actions: seq<Action>, last: State<T>)
    requires Serves(fetch, L) && Control(s) && Exact(fetch, L, start, s) && Run(fetch, s, actions, last)
    ensures |actions| + Measure(L, last) <= Measure(L, s)
    decreases |actions|
  {
    if actions == [] {
    } else {
      StepShrinks(fetch, L, start, s, actions[0]);
      StepKeepsControl(fetch, s, actions[0]);
      StepKeepsExact(fetch, L, start, s, actions[0]);
      DrainTerminates(fetch, L, start, Next(fetch, s, actions[0]), actions[1..], last);
    }
  }
}
