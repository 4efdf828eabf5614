/**
 Tabs and session history in the browser process: navigation, traversal, history entries that
 share a document, crash recovery, and the events renderers send.
 */
module Session {
  import opened Epochs
  import opened Options

  type TabId = nat

  /** Entries with the same `docSeq` belong to one document: moving between them does not reload. */
  datatype Entry = Entry(url: string, title: string, docSeq: nat, docIndex: nat)

  datatype ToRenderer =
    | Init
    | Navigate(url: string, verb: string)
    | LoadHtml(url: string, html: string)
    | HistoryTraverse(url: string, index: nat)
    | Reload
    | Stop

  datatype LoadEvent = Started | DomContentLoaded | Load | Failed

  datatype FromRenderer =
    | Frame(capture: bool)
    | Title(title: string)
    | UrlChanged(url: string)
    | LoadChanged(event: LoadEvent)
    | OpenUrl(url: string, verb: string, newTab: bool, replace: bool)
    | HistoryGo(delta: int)
    | HistoryPush(url: string, replace: bool)

  datatype Event =
    | FromTab(tab: TabId, msg: FromRenderer)
    | TabCrashed(tab: TabId)
    | Renderer(tab: TabId, epoch: nat, raw: Option<FromRenderer>)

  /** `sent` is what the tab's present renderer has been sent. */
  datatype Tab = Tab(epoch: nat, url: string, title: string, loading: bool, crashed: bool,
    history: seq<Entry>, index: nat, sent: seq<ToRenderer>)

  // ----- URLs

  predicate StartsWith(s: string, prefix: string) {
    |prefix| <= |s| && s[..|prefix|] == prefix
  }

  function BeforeHash(u: string): (r: string)
    ensures r <= u && '#' !in r && (|r| < |u| ==> u[|r|] == '#')
  {
    if u == "" || u[0] == '#' then "" else [u[0]] + BeforeHash(u[1..])
  }

  function WithoutFragment(u: string): Option<string> {
    if StartsWith(u, "about:") then None else Some(BeforeHash(u))
  }

  predicate SameDocument(a: string, b: string) {
    WithoutFragment(a).Some? && WithoutFragment(a) == WithoutFragment(b)
  }

  function LowerChar(c: char): char {
    if 'A' <= c <= 'Z' then c - 'A' + 'a' else c
  }

  predicate EqIgnoreAsciiCase(a: string, b: string) {
    |a| == |b| && forall i :: 0 <= i < |a| ==> LowerChar(a[i]) == LowerChar(b[i])
  }

  /** A GET that only changes the fragment stays in the document. */
  predicate FragmentOnly(t: Tab, url: string, verb: string) {
    EqIgnoreAsciiCase(verb, "GET") && '#' in url && t.index < |t.history| && SameDocument(t.history[t.index].url, url)
  }

  predicate IsGet(verb: string) {
    |verb| == 3 && verb[0] in "gG" && verb[1] in "eE" && verb[2] in "tT"
  }

  /** `u` is `page`, with a fragment or without. */
  predicate IsPage(u: string, page: string) {
    '#' !in page && (u == page || page + "#" <= u)
  }

  predicate Fragment(from: string, to: string, page: string) {
    IsPage(from, page) && IsPage(to, page) && to != page && !("about:" <= from)
  }

  /** A GET in any letter case, to a fragment of the page of the tab's current entry. */
  ghost predicate Stays(t: Tab, url: string, verb: string) {
    IsGet(verb) && t.index < |t.history| && exists page :: Fragment(t.history[t.index].url, url, page)
  }

  lemma {:induction false} PageIs(u: string, page: string)
    requires IsPage(u, page)
    ensures BeforeHash(u) == page
  {
    var r := BeforeHash(u);
    if u != page { assert u[|page|] == (page + "#")[|page|] == '#'; }
    assert forall i :: 0 <= i < |page| ==> page[i] == u[i] && page[i] in page;
    assert forall i :: 0 <= i < |r| ==> r[i] == u[i] && r[i] in r;
    assert r == u[..|r|] && page == u[..|page|];
  }

  lemma {:induction false} BeforeHashIsPage(u: string)
    ensures IsPage(u, BeforeHash(u)) && (u == BeforeHash(u) <==> '#' !in u)
  {
    var r := BeforeHash(u);
    if |r| < |u| {
      assert u[|r|] in u && r + "#" == u[..|r| + 1];
    } else {
      assert r == u;
    }
  }

  /** Nothing before the fragment is `about:` of one of two URLs of a page and not of the other. */
  lemma {:induction false} AboutPage(u: string, page: string)
    requires IsPage(u, page)
    ensures StartsWith(u, "about:") <==> "about:" <= page
  {
    if u != page { assert u[|page|] == (page + "#")[|page|] == '#'; }
    assert StartsWith(u, "about:") ==> forall i :: 0 <= i < 6 ==> u[i] == "about:"[i];
  }

  lemma {:induction false} FragmentOnlyIs(t: Tab, url: string, verb: string)
    ensures FragmentOnly(t, url, verb) <==> Stays(t, url, verb)
  {
    assert EqIgnoreAsciiCase(verb, "GET") <==> IsGet(verb) by {
      if |verb| == 3 {
        assert LowerChar(verb[0]) == 'g' <==> verb[0] in "gG";
        assert LowerChar(verb[1]) == 'e' <==> verb[1] in "eE";
        assert LowerChar(verb[2]) == 't' <==> verb[2] in "tT";
      }
    }
    if t.index < |t.history| { FragmentIs(t.history[t.index].url, url); }
  }

  lemma {:induction false} FragmentIs(from: string, to: string)
    ensures '#' in to && SameDocument(from, to) <==> exists page :: Fragment(from, to, page)
  {
    BeforeHashIsPage(from);
    BeforeHashIsPage(to);
    AboutPage(from, BeforeHash(from));
    AboutPage(to, BeforeHash(to));
    if '#' in to && SameDocument(from, to) { assert Fragment(from, to, BeforeHash(from)); }
    forall page | Fragment(from, to, page) ensures BeforeHash(from) == page && BeforeHash(to) == page {
      PageIs(from, page);
      PageIs(to, page);
    }
  }

  // ----- what always holds of a tab

  ghost predicate TabOk(t: Tab) {
    && t.epoch < EPOCHS
    && if t.history == [] then t.index == 0 else t.index < |t.history| && t.url == t.history[t.index].url
  }

  /** The documents a tab's history mentions. */
  ghost function Docs(t: Tab): set<nat> {
    set e | e in t.history :: e.docSeq
  }

  lemma {:induction false} DocsIn(t: Tab, bound: set<nat>)
    requires forall i :: 0 <= i < |t.history| ==> t.history[i].docSeq in bound
    ensures Docs(t) <= bound
  {
  }

  lemma {:induction false} InDocs(t: Tab, i: nat)
    requires i < |t.history|
    ensures t.history[i].docSeq in Docs(t)
  {
    assert t.history[i] in t.history;
  }

  ghost function DocsOf(tabs: map<TabId, Tab>, id: TabId): set<nat> {
    if id in tabs then Docs(tabs[id]) else {}
  }

  /** No two tabs share a document, and no document is numbered ahead of the counter. */
  ghost predicate DocsOk(tabs: map<TabId, Tab>, next: nat) {
    && (forall id, d :: d in DocsOf(tabs, id) ==> d < next)
    && forall a, b :: a != b ==> DocsOf(tabs, a) !! DocsOf(tabs, b)
  }

  lemma {:induction false} DocsStayOk(tabs: map<TabId, Tab>, id: TabId, t: Tab, next: nat, next': nat)
    requires DocsOk(tabs, next) && next <= next' <= next + 1
    requires Docs(t) <= DocsOf(tabs, id) + (if next < next' then {next} else {})
    ensures DocsOk(tabs[id := t], next')
  {
    var after := tabs[id := t];
    forall a, b | a != b ensures DocsOf(after, a) !! DocsOf(after, b) {
      assert a != id ==> DocsOf(after, a) == DocsOf(tabs, a);
      assert b != id ==> DocsOf(after, b) == DocsOf(tabs, b);
      assert next !in DocsOf(tabs, a) && next !in DocsOf(tabs, b);
    }
    forall a, d | d in DocsOf(after, a) ensures d < next' {
      assert a != id ==> DocsOf(after, a) == DocsOf(tabs, a);
    }
  }

  // ----- what the operations mean for one tab

  ghost predicate SamePages(h: seq<Entry>, k: seq<Entry>) {
    |h| == |k| && forall i :: 0 <= i < |h| ==> h[i].url == k[i].url && h[i].title == k[i].title
  }

  /** Two entries belong to one document afterwards just when they did before. */
  ghost predicate SameDocuments(h: seq<Entry>, k: seq<Entry>) {
    && |h| == |k|
    && forall i, j :: 0 <= i < |h| && 0 <= j < |h| ==>
      (h[i].docSeq == h[j].docSeq <==> k[i].docSeq == k[j].docSeq)
  }

  /** Moving to an entry that is there: within the document, or into another one, which is loaded. */
  ghost predicate Moved(t: Tab, t': Tab, delta: int) {
    && 0 <= t.index + delta < |t.history| && t.index < |t.history|
    && t' == t'.(epoch := t.epoch, title := t.title, crashed := t.crashed)
    && t'.index == t.index + delta && SamePages(t.history, t'.history) && SameDocuments(t.history, t'.history)
    && t'.url == t.history[t'.index].url
    && (t.history[t.index].docSeq == t.history[t'.index].docSeq ==>
      t'.history == t.history && t'.loading == t.loading
      && t'.sent == t.sent + [HistoryTraverse(t'.url, t.history[t'.index].docIndex)])
    && (t.history[t.index].docSeq != t.history[t'.index].docSeq ==>
      t'.loading && t'.sent == t.sent + [Navigate(t'.url, "GET")]
      && t'.history[t'.index].docIndex == 0 && t'.history[t'.index].docSeq !in Docs(t))
  }

  ghost predicate Reloads(t: Tab, t': Tab) {
    t'.sent == t.sent + [Navigate(t'.url, "GET")]
  }

  /** Moving there and back restores the index, the URL, the pages and which of them share a
      document; the way back loads a document just when the way there did. */
  lemma {:induction false} ThereAndBack(t: Tab, t1: Tab, t2: Tab, delta: int)
    requires TabOk(t) && Moved(t, t1, delta) && Moved(t1, t2, -delta)
    ensures t2.index == t.index && t2.url == t.url
    ensures SamePages(t.history, t2.history) && SameDocuments(t.history, t2.history)
    ensures Reloads(t1, t2) <==> Reloads(t, t1)
  {
    var i, j := t.index, t1.index;
    assert t1.history[i].docSeq == t1.history[j].docSeq <==> t.history[i].docSeq == t.history[j].docSeq;
    assert t1.sent[|t1.sent| - 1] == t1.sent[|t.sent|] && t2.sent[|t1.sent|] == t2.sent[|t2.sent| - 1];
    forall a, b | 0 <= a < |t.history| && 0 <= b < |t.history|
      ensures t.history[a].docSeq == t.history[b].docSeq <==> t2.history[a].docSeq == t2.history[b].docSeq
    {
      assert t.history[a].docSeq == t.history[b].docSeq <==> t1.history[a].docSeq == t1.history[b].docSeq;
    }
  }

  /** Where a new entry goes: over the current one, or after it in place of everything that follows. */
  ghost predicate Placed(t: Tab, t': Tab, replace: bool) {
    && t'.index == (if t.history == [] then 0 else if replace then t.index else t.index + 1)
    && t'.index < |t'.history| && t'.url == t'.history[t'.index].url
    && if replace && t.history != []
       then
         && |t'.history| == |t.history|
         && forall i :: 0 <= i < |t.history| && i != t.index ==> t'.history[i] == t.history[i]
       else |t'.history| == t'.index + 1 && t'.index <= |t.history| && t'.history[..t'.index] == t.history[..t'.index]
  }

  /** The next entry of the same document, or another one in its place. */
  ghost predicate Follows(c: Entry, e: Entry, replace: bool) {
    e.docSeq == c.docSeq && e.title == c.title && e.docIndex == c.docIndex + (if replace then 0 else 1)
  }

  ghost predicate Opened(t: Tab, t': Tab, url: string, verb: string, replace: bool, newDoc: nat) {
    && Placed(t, t', replace) && t'.url == url
    && t' == t'.(epoch := t.epoch, title := t.title, crashed := t.crashed)
    && t'.sent == t.sent + [Navigate(url, verb)]
    && (Stays(t, url, verb) ==>
      t'.loading == t.loading && Follows(t.history[t.index], t'.history[t'.index], replace))
    && (!Stays(t, url, verb) ==> t'.loading && t'.history[t'.index] == Entry(url, "", newDoc, 0))
  }

  /** An entry that `open` adds shares a document with another entry only after a change of fragment. */
  lemma {:induction false} OpenedDocument(t: Tab, t': Tab, url: string, verb: string, replace: bool, next: nat)
    requires TabOk(t) && Opened(t, t', url, verb, replace, next) && forall d :: d in Docs(t) ==> d < next
    ensures t.history != [] && !replace ==>
      (t'.history[t'.index].docSeq == t'.history[t.index].docSeq <==> Stays(t, url, verb))
    ensures !Stays(t, url, verb) ==>
      forall i :: 0 <= i < |t'.history| && i != t'.index ==> t'.history[i].docSeq != t'.history[t'.index].docSeq
  {
    forall i | 0 <= i < |t'.history| && i != t'.index ensures t'.history[i].docSeq < next {
      if replace && t.history != [] {
        assert t'.history[i] == t.history[i];
      } else {
        assert t'.history[i] == t'.history[..t'.index][i] == t.history[..t'.index][i];
      }
      InDocs(t, i);
    }
  }

  /** Opening a page and going back: the old page again, by a load unless only the fragment changed. */
  lemma {:induction false} OpenAndBack(t: Tab, t1: Tab, t2: Tab, url: string, verb: string, next: nat)
    requires TabOk(t) && t.history != [] && (forall d :: d in Docs(t) ==> d < next)
    requires Opened(t, t1, url, verb, false, next) && Moved(t1, t2, -1)
    ensures t2.index == t.index && t2.url == t.url
    ensures Reloads(t1, t2) <==> !Stays(t, url, verb)
  {
    OpenedDocument(t, t1, url, verb, false, next);
    assert t1.history[t.index] == t1.history[..t1.index][t.index] == t.history[t.index];
    assert t2.sent[|t1.sent|] == t2.sent[|t2.sent| - 1];
  }

  ghost predicate Pushed(t: Tab, t': Tab, url: string, replace: bool) {
    && t'.url == url
    && t' == t'.(epoch := t.epoch, title := t.title, crashed := t.crashed, loading := t.loading, sent := t.sent)
    && (t.history == [] ==> t'.history == [] && t'.index == 0)
    && (t.history != [] ==>
      && Placed(t, t', replace) && t.index < |t.history|
      && Follows(t.history[t.index], t'.history[t'.index], replace))
  }

  /** A page that pushed an entry and goes back is told so, and is not loaded again. */
  lemma {:induction false} PushAndBack(t: Tab, t1: Tab, t2: Tab, url: string)
    requires TabOk(t) && t.history != [] && Pushed(t, t1, url, false) && Moved(t1, t2, -1)
    ensures t2.index == t.index && t2.url == t.url && t2.loading == t.loading
    ensures t2.sent == t.sent + [HistoryTraverse(t.url, t.history[t.index].docIndex)]
  {
    assert t1.history[t.index] == t1.history[..t1.index][t.index] == t.history[t.index];
  }

  ghost predicate Gone(t: Tab, t': Tab, delta: int) {
    if delta == 0 then t' == t.(sent := t.sent + [Reload])
    else if 0 <= t.index + delta < |t.history| then Moved(t, t', delta)
    else t' == t
  }

  // ----- renderers that have been replaced

  /** What a renderer's message does to its tab, new tabs aside. */
  ghost predicate Received(t: Tab, t': Tab, m: FromRenderer, newDoc: nat) {
    match m
    case Frame(_) => t' == t
    case Title(title) =>
      && t' == t.(title := title, history := t'.history)
      && OnlyCurrent(t, t', (e: Entry) => e.(title := title))
    case UrlChanged(url) =>
      && t' == t.(url := url, history := t'.history)
      && OnlyCurrent(t, t', (e: Entry) => e.(url := url))
    case LoadChanged(event) => t' == t.(loading := event.Started? || (event.DomContentLoaded? && t.loading))
    case OpenUrl(url, verb, newTab, replace) => if newTab then t' == t else Opened(t, t', url, verb, replace, newDoc)
    case HistoryGo(delta) => Gone(t, t', delta)
    case HistoryPush(url, replace) => Pushed(t, t', url, replace)
  }

  ghost predicate OnlyCurrent(t: Tab, t': Tab, f: Entry -> Entry) {
    && |t'.history| == |t.history|
    && forall i :: 0 <= i < |t.history| ==>
      t'.history[i] == if i == t.index then f(t.history[i]) else t.history[i]
  }

  /** What the embedder is told. */
  function Reply(id: TabId, m: FromRenderer): Option<Event> {
    match m
    case Frame(capture) => if capture then Some(FromTab(id, m)) else None
    case HistoryGo(_) => None
    case OpenUrl(url, _, _, _) => Some(FromTab(id, UrlChanged(url)))
    case HistoryPush(url, _) => Some(FromTab(id, UrlChanged(url)))
    case _ => Some(FromTab(id, m))
  }

  predicate Stale(tabs: map<TabId, Tab>, ev: Event) {
    ev.Renderer? && (ev.tab in tabs ==> tabs[ev.tab].epoch != ev.epoch)
  }

  function Tagless(ev: Event): Event {
    if ev.Renderer? then if ev.raw.Some? then FromTab(ev.tab, ev.raw.value) else TabCrashed(ev.tab) else ev
  }

  /** What a replaced renderer still sends is dropped, however often its tab got a new one since,
      unless the count came back to where it was. */
  lemma {:induction false} ReplacedIsStale(tabs: map<TabId, Tab>, id: TabId, epoch: nat, respawns: nat,
      raw: Option<FromRenderer>)
    requires id in tabs && epoch < EPOCHS && tabs[id].epoch == EpochAfter(epoch, respawns)
    ensures Stale(tabs, Renderer(id, epoch, raw)) <==> respawns % EPOCHS != 0
  {
    OldEpochIsOld(epoch, respawns);
  }

  // ----- the browser

  /** Over the current entry, or after it in place of the forward entries. */
  function WithEntry(t: Tab, e: Entry, replace: bool): (t': Tab)
    requires TabOk(t)
    ensures Placed(t, t'.(url := e.url), replace) && t'.history[t'.index] == e
    ensures t' == t.(history := t'.history, index := t'.index)
    ensures Docs(t') <= Docs(t) + {e.docSeq}
  {
    if t.history == [] then t.(history := [e], index := 0)
    else if replace then t.(history := t.history[t.index := e])
    else t.(history := t.history[..t.index + 1] + [e], index := t.index + 1)
  }

  lemma {:induction false} Renumbered(t: Tab, h: seq<Entry>, from: nat, target: nat, next: nat)
    requires target < |t.history| && t.index < |t.history| && t.history[target].docSeq == from && next !in Docs(t)
    requires |h| == |t.history| && h[target].docIndex == 0
    requires forall i :: 0 <= i < |h| ==> h[i].url == t.history[i].url && h[i].title == t.history[i].title
    requires forall i :: 0 <= i < |h| ==>
      h[i].docSeq == if t.history[i].docSeq == from then next else t.history[i].docSeq
    ensures SamePages(t.history, h) && SameDocuments(t.history, h)
    ensures Docs(t.(history := h)) <= Docs(t) + {next}
  {
    forall i | 0 <= i < |h| ensures t.history[i].docSeq != next && h[i].docSeq in Docs(t) + {next} { InDocs(t, i); }
    DocsIn(t.(history := h), Docs(t) + {next});
  }

  ghost predicate Distinct(order: seq<TabId>) {
    forall i, j :: 0 <= i < j < |order| ==> order[i] != order[j]
  }

  function Retain(order: seq<TabId>, id: TabId): (o: seq<TabId>)
    ensures forall a :: a in o <==> a in order && a != id
  {
    if order == [] then [] else if order[0] == id then Retain(order[1..], id) else [order[0]] + Retain(order[1..], id)
  }

  lemma {:induction false} RetainDistinct(order: seq<TabId>, id: TabId)
    requires Distinct(order)
    ensures Distinct(Retain(order, id))
  {
    if order != [] {
      RetainDistinct(order[1..], id);
      assert order[0] !in order[1..];
    }
  }

  ghost predicate Opening(t: Tab, url: string, newDoc: nat) {
    t == if url == "" then Tab(0, "", "", false, false, [], 0, [Init])
    else Tab(0, url, "", true, false, [Entry(url, "", newDoc, 0)], 0, [Init, Navigate(url, "GET")])
  }

  /** Gives every entry of one document the number of another. */
  method Renumber(history: seq<Entry>, old_: nat, new_: nat) returns (h: seq<Entry>)
    ensures |h| == |history|
    ensures forall i :: 0 <= i < |h| ==>
      h[i] == if history[i].docSeq == old_ then history[i].(docSeq := new_) else history[i]
  {
    h := history;
    for i := 0 to |history|
      invariant |h| == |history|
      invariant forall j :: 0 <= j < |h| ==>
        h[j] == if j < i && history[j].docSeq == old_ then history[j].(docSeq := new_) else history[j]
    {
      if h[i].docSeq == old_ { h := h[i := h[i].(docSeq := new_)]; }
    }
  }

  class Browser {
    var tabs: map<TabId, Tab>
    var order: seq<TabId>
    var nextTab: TabId
    var nextDocSeq: nat

    ghost predicate Valid()
      reads this
    {
      && Distinct(order)
      && (forall id :: id in order <==> id in tabs)
      && (forall id :: id in tabs ==> id < nextTab && TabOk(tabs[id]))
      && DocsOk(tabs, nextDocSeq)
    }

    ghost predicate Same(m: map<TabId, Tab>, o: seq<TabId>, n: TabId, d: nat)
      reads this
    {
      tabs == m && order == o && nextTab == n && nextDocSeq == d
    }

    ghost predicate Added(m: map<TabId, Tab>, o: seq<TabId>, id: TabId, url: string, newDoc: nat)
      reads this
    {
      id !in m && order == o + [id] && id in tabs && tabs == m[id := tabs[id]] && Opening(tabs[id], url, newDoc)
    }

    /** Only tab `id` differs from what `m` says. */
    ghost predicate OnlyTab(m: map<TabId, Tab>, id: TabId)
      reads this
    {
      id in m && id in tabs && tabs == m[id := tabs[id]]
    }

    /** What a message of tab `id` does, and what the embedder hears of it. */
    ghost predicate Handled(m: map<TabId, Tab>, o: seq<TabId>, newTab: TabId, newDoc: nat, id: TabId, msg: FromRenderer,
        spawns: bool, r: Option<Event>)
      requires id in m
      reads this
    {
      if !(msg.OpenUrl? && msg.newTab) then
        r == Reply(id, msg) && order == o && OnlyTab(m, id) && Received(m[id], tabs[id], msg, newDoc)
      else if spawns then
        r == Some(FromTab(newTab, UrlChanged(msg.url))) && Added(m, o, newTab, msg.url, newDoc)
      else
        r == None && tabs == m && order == o
    }

    ghost predicate Processed(m: map<TabId, Tab>, o: seq<TabId>, newTab: TabId, newDoc: nat, ev: Event, spawns: bool,
        r: Option<Event>)
      reads this
    {
      if Stale(m, ev) then
        r == None && Same(m, o, newTab, newDoc)
      else if Tagless(ev).TabCrashed? then
        && r == Some(Tagless(ev)) && order == o
        && tabs == if ev.tab in m then m[ev.tab := m[ev.tab].(crashed := true, loading := false)] else m
      else if ev.tab !in m then
        r == None && Same(m, o, newTab, newDoc)
      else
        Handled(m, o, newTab, newDoc, ev.tab, Tagless(ev).msg, spawns, r)
    }

    constructor ()
      ensures Valid() && tabs == map[] && order == []
    {
      tabs, order, nextTab, nextDocSeq := map[], [], 1, 1;
    }

    /** Stores a tab whose history mentions its own documents and at most the next new one. */
    method Put(id: TabId, t: Tab, next: nat)
      requires Valid() && id in tabs && TabOk(t) && nextDocSeq <= next <= nextDocSeq + 1
      requires Docs(t) <= Docs(tabs[id]) + (if nextDocSeq < next then {nextDocSeq} else {})
      modifies `tabs, `nextDocSeq
      ensures Valid() && tabs == old(tabs)[id := t] && nextDocSeq == next
    {
      DocsStayOk(tabs, id, t, nextDocSeq, next);
      tabs, nextDocSeq := tabs[id := t], next;
    }

    /** A tab with a renderer of its own, unless none could be started. */
    method NewTab(url: string, spawns: bool) returns (r: Option<TabId>)
      requires Valid()
      modifies this
      ensures Valid()
      ensures !spawns ==> r == None && Same(old(tabs), old(order), old(nextTab) + 1, old(nextDocSeq))
      ensures spawns ==> r == Some(old(nextTab)) && Added(old(tabs), old(order), r.value, url, old(nextDocSeq))
    {
      var id := nextTab;
      nextTab := nextTab + 1;
      if !spawns { return None; }
      AddTab(id, Tab(0, url, "", false, false, [], 0, [Init]));
      if url != "" { Open(id, url, "GET", false); }
      return Some(id);
    }

    /** Puts a tab without a history last. */
    method AddTab(id: TabId, t: Tab)
      requires Valid() && id !in tabs && id < nextTab && TabOk(t) && t.history == []
      modifies `tabs, `order
      ensures Valid() && tabs == old(tabs)[id := t] && order == old(order) + [id]
    {
      DocsIn(t, {});
      DocsStayOk(tabs, id, t, nextDocSeq, nextDocSeq);
      tabs, order := tabs[id := t], order + [id];
    }

    method CloseTab(id: TabId)
      requires Valid()
      modifies this
      ensures Valid() && tabs == old(tabs) - {id} && id !in order
      ensures nextTab == old(nextTab) && nextDocSeq == old(nextDocSeq)
    {
      tabs := tabs - {id};
      RetainDistinct(order, id);
      order := Retain(order, id);
      assert forall a :: a != id ==> DocsOf(tabs, a) == DocsOf(old(tabs), a);
      assert DocsOf(tabs, id) == {};
    }

    method Open(id: TabId, url: string, verb: string, replace: bool)
      requires Valid()
      modifies `tabs, `nextDocSeq
      ensures Valid()
      ensures id !in old(tabs) ==> tabs == old(tabs) && nextDocSeq == old(nextDocSeq)
      ensures id in old(tabs) ==>
        OnlyTab(old(tabs), id) && Opened(old(tabs)[id], tabs[id], url, verb, replace, old(nextDocSeq))
    {
      if id !in tabs { return; }
      var t := tabs[id];
      var sameDoc := FragmentOnly(t, url, verb);
      FragmentOnlyIs(t, url, verb);
      var entry, next := Entry(url, "", nextDocSeq, 0), nextDocSeq;
      if sameDoc {
        var c := t.history[t.index];
        entry := Entry(url, c.title, c.docSeq, if replace then c.docIndex else c.docIndex + 1);
      } else {
        next := next + 1;
      }
      t := WithEntry(t, entry, replace).(url := url);
      if !sameDoc { t := t.(loading := true); }
      Put(id, t.(sent := t.sent + [Navigate(url, verb)]), next);
    }

    method Go(id: TabId, delta: int)
      requires Valid()
      modifies `tabs, `nextDocSeq
      ensures Valid()
      ensures id !in old(tabs) ==> tabs == old(tabs) && nextDocSeq == old(nextDocSeq)
      ensures id in old(tabs) ==> OnlyTab(old(tabs), id) && Gone(old(tabs)[id], tabs[id], delta)
    {
      if id !in tabs { return; }
      var t := tabs[id];
      if delta == 0 {
        Put(id, t.(sent := t.sent + [ToRenderer.Reload]), nextDocSeq);
        return;
      }
      var target := t.index + delta;
      if target < 0 || target >= |t.history| { return; }
      var entry := t.history[target];
      if entry.docSeq == t.history[t.index].docSeq {
        Put(id, t.(index := target, url := entry.url, sent := t.sent + [HistoryTraverse(entry.url, entry.docIndex)]),
          nextDocSeq);
      } else {
        var h := Renumber(t.history, entry.docSeq, nextDocSeq);
        h := h[target := h[target].(docIndex := 0)];
        assert nextDocSeq !in DocsOf(tabs, id);
        Renumbered(t, h, entry.docSeq, target, nextDocSeq);
        var t' := t.(index := target, url := entry.url, history := h, loading := true,
          sent := t.sent + [Navigate(entry.url, "GET")]);
        assert Docs(t') == Docs(t.(history := h));
        Put(id, t', nextDocSeq + 1);
      }
    }

    /** Replaces a tab's renderer; the history stays. */
    method Respawn(id: TabId, html: Option<string>, spawns: bool)
      requires Valid()
      modifies `tabs
      ensures Valid()
      ensures id !in old(tabs) || !spawns ==> tabs == old(tabs)
      ensures id in old(tabs) && spawns ==> OnlyTab(old(tabs), id) && var t := old(tabs)[id];
        tabs[id] == t.(epoch := NextEpoch(t.epoch), crashed := false,
          sent := [Init, if html.Some? then LoadHtml(t.url, html.value) else Navigate(t.url, "GET")])
    {
      if id !in tabs || !spawns { return; }
      var t := tabs[id];
      var first := if html.Some? then LoadHtml(t.url, html.value) else Navigate(t.url, "GET");
      ReplaceTab(id, t.(epoch := NextEpoch(t.epoch), crashed := false, sent := [Init, first]));
    }

    /** Stores a tab with the history it had, entry texts aside. */
    method ReplaceTab(id: TabId, t: Tab)
      requires Valid() && id in tabs && TabOk(t) && |t.history| == |tabs[id].history|
      requires forall i :: 0 <= i < |t.history| ==> t.history[i].docSeq == tabs[id].history[i].docSeq
      modifies `tabs
      ensures Valid() && tabs == old(tabs)[id := t]
    {
      forall i | 0 <= i < |t.history| ensures t.history[i].docSeq in Docs(tabs[id]) { InDocs(tabs[id], i); }
      DocsIn(t, Docs(tabs[id]));
      DocsStayOk(tabs, id, t, nextDocSeq, nextDocSeq);
      tabs := tabs[id := t];
    }

    method Reload(id: TabId)
      requires Valid()
      modifies `tabs
      ensures Valid()
      ensures id !in old(tabs) ==> tabs == old(tabs)
      ensures id in old(tabs) ==> var t := old(tabs)[id];
        tabs == old(tabs)[id := t.(loading := true, sent := t.sent + [ToRenderer.Reload])]
    {
      if id in tabs { ReplaceTab(id, tabs[id].(loading := true, sent := tabs[id].sent + [ToRenderer.Reload])); }
    }

    method Stop(id: TabId)
      requires Valid()
      modifies `tabs
      ensures Valid()
      ensures id !in old(tabs) ==> tabs == old(tabs)
      ensures id in old(tabs) ==> var t := old(tabs)[id];
        tabs == old(tabs)[id := t.(loading := false, sent := t.sent + [ToRenderer.Stop])]
    {
      if id in tabs { ReplaceTab(id, tabs[id].(loading := false, sent := tabs[id].sent + [ToRenderer.Stop])); }
    }

    method PushEntry(id: TabId, url: string, replace: bool)
      requires Valid() && id in tabs
      modifies `tabs, `nextDocSeq
      ensures nextDocSeq == old(nextDocSeq)
      ensures Valid() && OnlyTab(old(tabs), id) && Pushed(old(tabs)[id], tabs[id], url, replace)
    {
      var t := tabs[id];
      if t.index < |t.history| {
        var c := t.history[t.index];
        InDocs(t, t.index);
        t := WithEntry(t, Entry(url, c.title, c.docSeq, if replace then c.docIndex else c.docIndex + 1), replace);
      }
      Put(id, t.(url := url), nextDocSeq);
    }

    /** Messages about the page that is shown. */
    method Note(id: TabId, m: FromRenderer)
      requires Valid() && id in tabs && (m.Title? || m.UrlChanged? || m.LoadChanged?)
      modifies `tabs
      ensures Valid() && OnlyTab(old(tabs), id) && Received(old(tabs)[id], tabs[id], m, nextDocSeq)
    {
      var t := tabs[id];
      match m {
        case Title(title) => ReplaceTab(id, Retitled(t, title));
        case UrlChanged(url) => ReplaceTab(id, Readdressed(t, url));
        case LoadChanged(event) =>
          if event.Started? { ReplaceTab(id, t.(loading := true)); }
          else if !event.DomContentLoaded? { ReplaceTab(id, t.(loading := false)); }
      }
    }

    /** A message of a tab's present renderer. */
    method Receive(id: TabId, m: FromRenderer, spawns: bool) returns (r: Option<Event>)
      requires Valid() && id in tabs
      modifies this
      ensures Valid()
      ensures Handled(old(tabs), old(order), old(nextTab), old(nextDocSeq), id, m, spawns, r)
    {
      match m {
        case OpenUrl(url, verb, newTab, replace) =>
          if newTab {
            var n := NewTab(url, spawns);
            return if n.Some? then Some(FromTab(n.value, UrlChanged(url))) else None;
          }
          Open(id, url, verb, replace);
          r := Some(FromTab(id, UrlChanged(url)));
        case HistoryGo(delta) =>
          Go(id, delta);
          r := None;
        case HistoryPush(url, replace) =>
          PushEntry(id, url, replace);
          r := Some(FromTab(id, UrlChanged(url)));
        case Frame(capture) => r := if capture then Some(FromTab(id, m)) else None;
        case _ =>
          Note(id, m);
          r := Some(FromTab(id, m));
      }
    }

    /** Events of closed tabs and of replaced renderers change nothing. */
    method ProcessEvent(ev: Event, spawns: bool) returns (r: Option<Event>)
      requires Valid()
      modifies this
      ensures Valid()
      ensures Processed(old(tabs), old(order), old(nextTab), old(nextDocSeq), ev, spawns, r)
    {
      var e := ev;
      if ev.Renderer? {
        if ev.tab !in tabs || tabs[ev.tab].epoch != ev.epoch { return None; }
        match ev.raw {
          case Some(m) => e := FromTab(ev.tab, m);
          case None => e := TabCrashed(ev.tab);
        }
      }
      if e.TabCrashed? {
        if e.tab in tabs { ReplaceTab(e.tab, tabs[e.tab].(crashed := true, loading := false)); }
        return Some(e);
      }
      if e.tab !in tabs { return None; }
      r := Receive(e.tab, e.msg, spawns);
    }
  }

  function Retitled(t: Tab, title: string): Tab {
    t.(title := title,
      history := if t.index < |t.history| then t.history[t.index := t.history[t.index].(title := title)] else t.history)
  }

  function Readdressed(t: Tab, url: string): Tab {
    t.(url := url,
      history := if t.index < |t.history| then t.history[t.index := t.history[t.index].(url := url)] else t.history)
  }

  // ----- runs

  datatype Command =
    | DoNewTab(url: string, spawns: bool)
    | DoClose(id: TabId)
    | DoOpen(id: TabId, url: string)
    | DoGo(id: TabId, delta: int)
    | DoReload(id: TabId)
    | DoStop(id: TabId)
    | DoRespawn(id: TabId, html: Option<string>, spawns: bool)
    | DoEvent(ev: Event, spawns: bool)

  /** Whatever the user and the renderers do, every tab stands at an entry of its history and shows
      that entry's URL, and no document is shared between tabs or numbered ahead of the counter. */
  method Run(commands: seq<Command>) returns (b: Browser)
    ensures fresh(b) && b.Valid()
  {
    b := new Browser();
    for i := 0 to |commands|
      invariant b.Valid()
    {
      match commands[i] {
        case DoNewTab(url, spawns) => var _ := b.NewTab(url, spawns);
        case DoClose(id) => b.CloseTab(id);
        case DoOpen(id, url) => b.Open(id, url, "GET", false);
        case DoGo(id, delta) => b.Go(id, delta);
        case DoReload(id) => b.Reload(id);
        case DoStop(id) => b.Stop(id);
        case DoRespawn(id, html, spawns) => b.Respawn(id, html, spawns);
        case DoEvent(ev, spawns) => var _ := b.ProcessEvent(ev, spawns);
      }
    }
  }
}
