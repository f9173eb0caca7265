/** The background script (background.js): the `tasks` record of a crawl and
    the transitions that the runtime messages and the processing timer drive.
    Browser calls are recorded as events; each `await` is one atomic step. */
module Crawl {
  import opened Wrappers
  import opened Messages

  /** What the background script asks of the browser or tells the popup. */
  datatype Event =
    | RequestLinks(tab: nat)        // tabs.sendMessage(tab, { action: 'collectLinks' })
    | OpenTab(url: string)          // tabs.create({ url, active: false })
    | RequestCitation(tab: nat)     // tabs.sendMessage(tab, { action: 'downloadCitation' })
    | CloseTab(tab: nat)            // tabs.remove(tab)
    | Progress(current: int, total: int)
    | ErrorNotice(error: string)
    | Complete

  /** The module-level `tasks` record; `None` stands for `null`. */
  datatype Tasks = Tasks(
    total: int,
    current: int,
    urls: seq<string>,
    tabId: Option<nat>,
    currentTabId: Option<nat>,
    isRunning: bool,
    processedUrls: set<string>,
    nextPageUrl: Option<string>)

  const Initial := Tasks(0, 0, [], None, None, false, {}, None)

  const InvalidLinksError := "收到无效的链接数据"
  const EmptyQueueError := "没有找到可下载的链接"

  /** The result of one transition: the new record, the events in the order
      they are issued, and whether processNextUrl is called or scheduled next. */
  datatype Outcome = Outcome(tasks: Tasks, events: seq<Event>, next: bool)

  /** What every transition keeps: the length agrees with the queue, the
      position is within it, the processed set is never filled, and an idle
      crawl holds no queue, no pending page and no open item tab. */
  predicate Inv(t: Tasks) {
    && t.total == |t.urls|
    && 0 <= t.current <= t.total
    && t.processedUrls == {}
    && (!t.isRunning ==> t.urls == [] && t.current == 0 && t.nextPageUrl == None && t.currentTabId == None)
  }

  /** A pending next page counts only when its address is a non-empty string. */
  predicate HasNextPage(t: Tasks) {
    t.nextPageUrl.Some? && t.nextPageUrl.value != ""
  }

  /** stopDownload (background.js:60-76); a tab id of 0 is falsy and is not closed. */
  function Stop(t: Tasks): Outcome {
    var closing := if t.currentTabId.Some? && t.currentTabId.value != 0 then [CloseTab(t.currentTabId.value)] else [];
    Outcome(
      t.(isRunning := false, urls := [], total := 0, current := 0,
         currentTabId := None, nextPageUrl := None, processedUrls := {}),
      closing, false)
  }

  /** The runtime message listener (background.js:14-57). */
  function Handle(t: Tasks, m: Message): Outcome {
    match m
    case NextPageFound(url) =>
      if !t.isRunning then Outcome(t, [], false)
      else Outcome(t.(nextPageUrl := Some(url)), [], false)
    case StartDownload(tab) =>
      if t.isRunning then Outcome(t, [], false)
      else Outcome(t.(isRunning := true, tabId := Some(tab), urls := [], total := 0, current := 0), [RequestLinks(tab)], false)
    case LinksCollected(urls, _, _) =>
      if !t.isRunning then Outcome(t, [], false)
      else if urls.None? then Outcome(t, [ErrorNotice(InvalidLinksError)], false)
      else
        var t' := t.(urls := urls.value, total := |urls.value|, current := 0);
        if |urls.value| == 0 then Outcome(t', [ErrorNotice(EmptyQueueError)], false)
        else Outcome(t', [], true)
    case StopDownload => Stop(t)
    case OtherAction => Outcome(t, [], false)
  }

  /** processNextUrl (background.js:79-158) as one step. newTab is what
      `tabs.create` yields: the id of the tab it opens, or None when it rejects,
      which ends the step before anything is assigned. reply is what the
      citation request to that tab yields. */
  function ProcessNext(t: Tasks, newTab: Option<nat>, reply: CitationReply): Outcome
    requires Inv(t)
  {
    if t.current >= t.total then
      if HasNextPage(t) then
        var page := t.nextPageUrl.value;
        match newTab
        case None => Outcome(t, [OpenTab(page)], false)
        case Some(tab) =>
          Outcome(
            t.(tabId := Some(tab), nextPageUrl := None, urls := [], total := 0, current := 0),
            [OpenTab(page), RequestLinks(tab)], false)
      else
        var s := Stop(t);
        Outcome(s.tasks, [Complete] + s.events, false)
    else
      var url := t.urls[t.current];
      match newTab
      case None => Outcome(t, [OpenTab(url)], false)
      case Some(tab) =>
        var issued := [OpenTab(url), RequestCitation(tab)];
        var t' := t.(currentTabId := Some(tab));
        match reply
        case SendFailed => Outcome(t', issued, false)
        case EmptyReply =>
          Outcome(t'.(current := t.current + 1), issued + [CloseTab(tab)], t.isRunning)
        case Replied(_) =>
          Outcome(t'.(current := t.current + 1), issued + [Progress(t.current + 1, t.total), CloseTab(tab)], t.isRunning)
  }

  // ---------------------------------------------------------------------------
  // Single transitions

  lemma StopKeepsInv(t: Tasks)
    ensures Inv(Stop(t).tasks) && !Stop(t).tasks.isRunning
  {
  }

  lemma HandleKeepsInv(t: Tasks, m: Message)
    requires Inv(t)
    ensures Inv(Handle(t, m).tasks)
  {
  }

  lemma ProcessNextKeepsInv(t: Tasks, newTab: Option<nat>, reply: CitationReply)
    requires Inv(t)
    ensures Inv(ProcessNext(t, newTab, reply).tasks)
  {
  }

  /** Stopping twice is stopping once: the second stop changes nothing and
      closes nothing. */
  lemma StopIdempotent(t: Tasks)
    ensures Stop(Stop(t).tasks) == Outcome(Stop(t).tasks, [], false)
  {
  }

  /** Starting while running is ignored; starting from an idle crawl gives a
      fresh record whatever came before, since nextPageUrl and processedUrls,
      which start leaves alone, are already cleared by the invariant. */
  lemma StartDownloadSpec(t: Tasks, tab: nat)
    requires Inv(t)
    ensures t.isRunning ==> Handle(t, StartDownload(tab)) == Outcome(t, [], false)
    ensures !t.isRunning ==>
      Handle(t, StartDownload(tab)) == Outcome(Initial.(isRunning := true, tabId := Some(tab)), [RequestLinks(tab)], false)
  {
  }

  /** Messages about links and pages are ignored by an idle crawl. */
  lemma IdleIgnoresPageMessages(t: Tasks, m: Message)
    requires !t.isRunning && (m.NextPageFound? || m.LinksCollected?)
    ensures Handle(t, m) == Outcome(t, [], false)
  {
  }

  /** A link list that is missing is reported and changes nothing; an empty one
      is reported, empties the queue and leaves the crawl running with nothing
      scheduled; a non-empty one restarts the queue and processing. */
  lemma LinksCollectedSpec(t: Tasks, urls: Option<seq<string>>, titles: seq<string>, totalResults: int)
    requires Inv(t) && t.isRunning
    ensures var o := Handle(t, LinksCollected(urls, titles, totalResults));
      && (urls.None? ==> o == Outcome(t, [ErrorNotice(InvalidLinksError)], false))
      && (urls == Some([]) ==> o.events == [ErrorNotice(EmptyQueueError)] && o.tasks.isRunning && o.tasks.urls == [] && !o.next)
      && (urls.Some? && urls.value != [] ==>
            o.events == [] && o.next && o.tasks.urls == urls.value && o.tasks.current == 0 && o.tasks.current < o.tasks.total)
  {
  }

  /** One item: the position advances by exactly one unless the request itself
      fails; progress is reported only for a reply; the tab is closed after
      both. */
  lemma ItemStepSpec(t: Tasks, newTab: nat, reply: CitationReply)
    requires Inv(t) && t.current < t.total
    ensures var o := ProcessNext(t, Some(newTab), reply);
      && o.events[..2] == [OpenTab(t.urls[t.current]), RequestCitation(newTab)]
      && o.tasks.currentTabId == Some(newTab)
      && (reply.SendFailed? ==> o.tasks.current == t.current && |o.events| == 2 && !o.next)
      && (!reply.SendFailed? ==> o.tasks.current == t.current + 1 && o.events[|o.events| - 1] == CloseTab(newTab) && o.next == t.isRunning)
      && (forall c, n :: Progress(c, n) in o.events <==> reply.Replied? && c == t.current + 1 && n == t.total)
      && Complete !in o.events
  {
  }

  /** The reply to a citation request is `{ success }` with the whole result
      object, which is always truthy: a download that failed is reported as
      progress all the same. */
  lemma FailedDownloadCountsAsProgress(t: Tasks, newTab: nat, error: string)
    requires Inv(t) && t.current < t.total
    ensures Progress(t.current + 1, t.total) in ProcessNext(t, Some(newTab), Replied(Failed(error))).events
  {
  }

  /** At the end of the queue with a pending next page: the queue is reset, the
      page is opened in a new tab that becomes the crawl's tab, links are
      requested from it, and no completion is reported. */
  lemma PaginationSpec(t: Tasks, newTab: nat, reply: CitationReply)
    requires Inv(t) && t.current >= t.total && HasNextPage(t)
    ensures var o := ProcessNext(t, Some(newTab), reply);
      && o.events == [OpenTab(t.nextPageUrl.value), RequestLinks(newTab)]
      && o.tasks == t.(tabId := Some(newTab), nextPageUrl := None, urls := [], total := 0, current := 0)
      && !o.next
  {
  }

  /** At the end of the queue without a pending page: exactly one completion,
      then a stop that leaves the crawl idle. */
  lemma CompletionSpec(t: Tasks, newTab: Option<nat>, reply: CitationReply)
    requires Inv(t) && t.current >= t.total && !HasNextPage(t)
    ensures var o := ProcessNext(t, newTab, reply);
      && o.events == [Complete] + Stop(t).events
      && o.tasks == Stop(t).tasks
      && !o.tasks.isRunning
      && !o.next
  {
  }

  /** A timer that fires after the crawl was stopped finds an empty queue and
      reports completion a second time. */
  lemma StaleTimerReportsCompletion(t: Tasks, newTab: Option<nat>, reply: CitationReply)
    requires Inv(t) && !t.isRunning
    ensures ProcessNext(t, newTab, reply) == Outcome(t, [Complete], false)
  {
  }

  /** A rejected `tabs.create` ends the step after the call is issued: nothing
      is assigned, no tab is recorded, and nothing is scheduled, so a running
      crawl stalls with the same record. */
  lemma TabCreateFailureStalls(t: Tasks, reply: CitationReply)
    requires Inv(t) && (t.current < t.total || HasNextPage(t))
    ensures var o := ProcessNext(t, None, reply);
      && o.tasks == t
      && o.events == [OpenTab(if t.current < t.total then t.urls[t.current] else t.nextPageUrl.value)]
      && !o.next
  {
  }

  // ---------------------------------------------------------------------------
  // Runs

  /** What drives the background script: a message, or the processing step
      running (called from the listener or fired by its timer). */
  datatype Input = Deliver(message: Message) | Step(newTab: Option<nat>, reply: CitationReply)

  function Apply(t: Tasks, input: Input): (o: Outcome)
    requires Inv(t)
    ensures Inv(o.tasks)
  {
    match input
    case Deliver(m) => HandleKeepsInv(t, m); Handle(t, m)
    case Step(newTab, reply) => ProcessNextKeepsInv(t, newTab, reply); ProcessNext(t, newTab, reply)
  }

  /** A run from t: the final record, every event in order, and whether the last
      input left a step pending. */
  function Run(t: Tasks, inputs: seq<Input>): (o: Outcome)
    requires Inv(t)
    ensures Inv(o.tasks)
  {
    if inputs == [] then Outcome(t, [], false)
    else
      var before := Run(t, inputs[..|inputs| - 1]);
      var last := Apply(before.tasks, inputs[|inputs| - 1]);
      Outcome(last.tasks, before.events + last.events, last.next)
  }

  /** Progress reports are in range: in any run, whatever the order of
      messages and steps, every report (c, n) has 1 <= c <= n. */
  lemma {:induction false} ProgressInRange(t: Tasks, inputs: seq<Input>)
    requires Inv(t)
    ensures forall e :: e in Run(t, inputs).events && e.Progress? ==> 1 <= e.current <= e.total
  {
    if inputs != [] {
      var p := inputs[..|inputs| - 1];
      ProgressInRange(t, p);
      var before := Run(t, p);
      var input := inputs[|inputs| - 1];
      if input.Step? {
        var o := ProcessNext(before.tasks, input.newTab, input.reply);
        assert forall e :: e in o.events && e.Progress? ==> 1 <= e.current <= e.total;
      }
    }
  }

  /** A one-page crawl of two links, the first downloaded and the second
      without a reply: progress is reported for the first only, both count,
      and the final stop closes the last item tab again. */
  lemma TwoLinkCrawl()
    ensures Run(Initial, [
        Deliver(StartDownload(1)),
        Deliver(LinksCollected(Some(["u1", "u2"]), [], 20)),
        Step(Some(10), Replied(Succeeded)),
        Step(Some(11), EmptyReply),
        Step(Some(12), EmptyReply)]).events
      == [RequestLinks(1),
          OpenTab("u1"), RequestCitation(10), Progress(1, 2), CloseTab(10),
          OpenTab("u2"), RequestCitation(11), CloseTab(11),
          Complete, CloseTab(11)]
  {
    var ins := [
        Deliver(StartDownload(1)),
        Deliver(LinksCollected(Some(["u1", "u2"]), [], 20)),
        Step(Some(10), Replied(Succeeded)),
        Step(Some(11), EmptyReply),
        Step(Some(12), EmptyReply)];
    var s1 := Initial.(isRunning := true, tabId := Some(1));
    var s2 := s1.(urls := ["u1", "u2"], total := 2);
    var s3 := s2.(currentTabId := Some(10), current := 1);
    var s4 := s3.(currentTabId := Some(11), current := 2);
    assert ins[..1][..0] == [];
    assert Run(Initial, ins[..1]) == Outcome(s1, [RequestLinks(1)], false);
    assert ins[..2][..1] == ins[..1];
    assert Run(Initial, ins[..2]) == Outcome(s2, [RequestLinks(1)], true);
    assert ins[..3][..2] == ins[..2];
    assert Run(Initial, ins[..3]).tasks == s3;
    assert ins[..4][..3] == ins[..3];
    assert Run(Initial, ins[..4]).tasks == s4;
    assert ins[..5][..4] == ins[..4];
    assert ins[..5] == ins;
  }

  // ---------------------------------------------------------------------------
  // The record updated in place

  /** The `tasks` record with the browser calls appended to `log`. */
  class CrawlTasks {
    var total: int
    var current: int
    var urls: seq<string>
    var tabId: Option<nat>
    var currentTabId: Option<nat>
    var isRunning: bool
    var processedUrls: set<string>
    var nextPageUrl: Option<string>
    var log: seq<Event>

    function State(): Tasks
      reads this
    {
      Tasks(total, current, urls, tabId, currentTabId, isRunning, processedUrls, nextPageUrl)
    }

    ghost predicate Valid()
      reads this
    {
      Inv(State())
    }

    constructor ()
      ensures Valid() && State() == Initial && log == []
    {
      total, current, urls := 0, 0, [];
      tabId, currentTabId := None, None;
      isRunning, processedUrls, nextPageUrl := false, {}, None;
      log := [];
    }

    method StopDownload()
      modifies this
      ensures Valid()
      ensures State() == Stop(old(State())).tasks
      ensures log == old(log) + Stop(old(State())).events
    {
      StopKeepsInv(State());
      isRunning := false;
      if currentTabId.Some? && currentTabId.value != 0 {
        log := log + [CloseTab(currentTabId.value)];
      }
      urls := [];
      total := 0;
      current := 0;
      currentTabId := None;
      nextPageUrl := None;
      processedUrls := {};
    }

    /** The message listener; the result says whether it called processNextUrl. */
    method OnMessage(m: Message) returns (processNext: bool)
      requires Valid()
      modifies this
      ensures Valid()
      ensures State() == Handle(old(State()), m).tasks
      ensures log == old(log) + Handle(old(State()), m).events
      ensures processNext == Handle(old(State()), m).next
    {
      HandleKeepsInv(State(), m);
      processNext := false;
      match m
      case NextPageFound(url) =>
        if !isRunning {
          return;
        }
        nextPageUrl := Some(url);
      case StartDownload(tab) =>
        if isRunning {
          return;
        }
        isRunning := true;
        tabId := Some(tab);
        urls := [];
        total := 0;
        current := 0;
        log := log + [RequestLinks(tab)];
      case LinksCollected(messageUrls, _, _) =>
        if !isRunning {
          return;
        }
        if messageUrls.None? {
          log := log + [ErrorNotice(InvalidLinksError)];
          return;
        }
        urls := messageUrls.value;
        total := |messageUrls.value|;
        current := 0;
        if total == 0 {
          log := log + [ErrorNotice(EmptyQueueError)];
          return;
        }
        processNext := true;
      case StopDownload =>
        StopDownload();
      case OtherAction =>
    }

    /** processNextUrl; the result says whether it scheduled itself again. */
    method ProcessNextUrl(newTab: Option<nat>, reply: CitationReply) returns (rescheduled: bool)
      requires Valid()
      modifies this
      ensures Valid()
      ensures State() == ProcessNext(old(State()), newTab, reply).tasks
      ensures log == old(log) + ProcessNext(old(State()), newTab, reply).events
      ensures rescheduled == ProcessNext(old(State()), newTab, reply).next
    {
      ProcessNextKeepsInv(State(), newTab, reply);
      rescheduled := false;
      if current >= total {
        if nextPageUrl.Some? && nextPageUrl.value != "" {
          log := log + [OpenTab(nextPageUrl.value)];
          if newTab.None? {
            return;
          }
          var tab := newTab.value;
          tabId := Some(tab);
          nextPageUrl := None;
          urls := [];
          total := 0;
          current := 0;
          log := log + [RequestLinks(tab)];
          return;
        }
        log := log + [Complete];
        StopDownload();
        return;
      }
      var url := urls[current];
      log := log + [OpenTab(url)];
      if newTab.None? {
        return;
      }
      var tab := newTab.value;
      currentTabId := Some(tab);
      log := log + [RequestCitation(tab)];
      if reply.SendFailed? {
        return;
      }
      if reply.EmptyReply? {
        current := current + 1;
        log := log + [CloseTab(tab)];
        rescheduled := isRunning;
        return;
      }
      current := current + 1;
      log := log + [Progress(current, total)];
      log := log + [CloseTab(tab)];
      rescheduled := isRunning;
    }
  }
}
