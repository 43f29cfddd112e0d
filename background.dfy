/**
 * The background script's bookkeeping (src/background/background.js): the multi-page
 * checkpoint of each tab, the tab group of each primary tab, the worker tabs a primary tab
 * opens, and their cleanup. `chrome.storage.local` is a map from keys to values; the
 * browser's tabs, messages and clocks are outcomes and times passed in.
 */
module TabBookkeeping {
  import opened SeqUtil
  import opened JsText
  import Page

  /** The four key prefixes, each followed by a tab id: `scrapingState_<tab>` and so on. */
  datatype Key =
    | ScrapingState(tab: int)
    | ScrapingGroup(tab: int)
    | MultiPageScraping(tab: int)
    | BackgroundTab(tab: int)

  /** The multi-page checkpoint a content script saves. */
  datatype Checkpoint = Checkpoint(
    isMultiPageScraping: bool,
    currentPageIndex: int,
    totalPagesToScrape: int,
    allPagesData: seq<Page.Record>,
    timestamp: int,
    baseUrl: string,
    isMinimal: bool)

  datatype GroupInfo = GroupInfo(groupId: int, primaryTabId: int, created: int)
  datatype MultiPageFlag = MultiPageFlag(active: bool, groupId: int, startTime: int)
  datatype BackgroundTabInfo = BackgroundTabInfo(primaryTabId: int, url: string, created: int, groupId: int)

  datatype Value =
    | StateValue(state: Checkpoint)
    | GroupValue(group: GroupInfo)
    | FlagValue(flag: MultiPageFlag)
    | TabValue(info: BackgroundTabInfo)

  type Store = map<Key, Value>

  /** Each key holds the kind of value its prefix names. */
  predicate WellTyped(m: Store) {
    forall k | k in m ::
      match k
      case ScrapingState(_) => m[k].StateValue?
      case ScrapingGroup(_) => m[k].GroupValue?
      case MultiPageScraping(_) => m[k].FlagValue?
      case BackgroundTab(_) => m[k].TabValue?
  }

  /** What one `chrome.storage.local.set` did: stored, or threw with this message. */
  datatype WriteResult = Stored | Rejected(message: string)

  /** Whether a save call returned or threw. */
  datatype SaveOutcome = SaveOk | SaveFailed(message: string)

  /** The checkpoint kept when the full one exceeds the storage quota: no page data. */
  function Minimal(s: Checkpoint): Checkpoint {
    Checkpoint(s.isMultiPageScraping, s.currentPageIndex, s.totalPagesToScrape, [], s.timestamp, s.baseUrl, true)
  }

  /** The store and outcome after `saveScrapingState`, given what each write did. */
  datatype Saved = Saved(store: Store, outcome: SaveOutcome)

  function SaveState(m: Store, state: Checkpoint, tab: int, first: WriteResult, retry: WriteResult): Saved {
    var key := ScrapingState(tab);
    match first
    case Stored => Saved(m[key := StateValue(state)], SaveOk)
    case Rejected(msg) =>
      if Includes(msg, "QUOTA_BYTES") then
        match retry
        case Stored => Saved(m[key := StateValue(Minimal(state))], SaveOk)
        case Rejected(msg2) => Saved(m, SaveFailed(msg2))
      else Saved(m, SaveFailed(msg))
  }

  /** `getScrapingState`: the checkpoint stored for the tab, or nothing (`null`). */
  function StateOf(m: Store, tab: int): Option<Checkpoint> {
    var key := ScrapingState(tab);
    if key in m && m[key].StateValue? then Some(m[key].state) else None
  }

  /** `clearScrapingState`. */
  function ClearState(m: Store, tab: int): Store {
    m - {ScrapingState(tab)}
  }

  /**
   * What the browser does during `getOrCreateScrapingGroup`: whether `chrome.tabs.group`
   * exists, the group it creates (nothing when it throws), whether storing the group
   * succeeds, and the time.
   */
  datatype GroupEnv = GroupEnv(supported: bool, created: Option<int>, storeOk: bool, now: int)

  datatype Grouped = Grouped(store: Store, groupId: int)

  function GroupOf(m: Store, primary: int): Option<GroupInfo> {
    var key := ScrapingGroup(primary);
    if key in m && m[key].GroupValue? then Some(m[key].group) else None
  }

  function GetOrCreateGroup(m: Store, primary: int, env: GroupEnv): Grouped {
    match GroupOf(m, primary)
    case Some(g) => Grouped(m, g.groupId)
    case None =>
      if !env.supported || env.created.None? || !env.storeOk then Grouped(m, -1)
      else
        var g := env.created.value;
        Grouped(m[ScrapingGroup(primary) := GroupValue(GroupInfo(g, primary, env.now))], g)
  }

  /** `cleanupScrapingGroup`; `tabsClosed` is false when closing the group's tabs throws. */
  function Cleanup(m: Store, primary: int, tabsClosed: bool): Store {
    if GroupOf(m, primary).Some? && tabsClosed then m - {ScrapingGroup(primary), MultiPageScraping(primary)}
    else m
  }

  /**
   * What the browser does during `createBackgroundScrapingTab`: the new tab (nothing when
   * `chrome.tabs.create` throws), the group step's environment, whether adding the tab to
   * an existing group succeeds, and the time.
   */
  datatype CreateEnv = CreateEnv(tab: Option<int>, group: GroupEnv, joinOk: bool, now: int)

  datatype CreateResult = TabCreated(tabId: int, groupId: int) | CreateFailed

  datatype Creation = Creation(store: Store, result: CreateResult)

  function CreateTab(m: Store, url: string, primary: int, env: CreateEnv): Creation {
    match env.tab
    case None => Creation(m, CreateFailed)
    case Some(tab) =>
      var grouped := GetOrCreateGroup(m, primary, env.group);
      if grouped.groupId != -1 && !env.joinOk then Creation(grouped.store, CreateFailed)
      else
        var m1 := grouped.store[BackgroundTab(tab) := TabValue(BackgroundTabInfo(primary, url, env.now, grouped.groupId))];
        var m2 := m1[MultiPageScraping(primary) := FlagValue(MultiPageFlag(true, grouped.groupId, env.now))];
        Creation(m2, TabCreated(tab, grouped.groupId))
  }

  /** The `checkMultiPageScraping` answer: `result[key]?.active || false`. */
  function MultiPageActive(m: Store, tab: int): bool {
    var key := MultiPageScraping(tab);
    key in m && m[key].FlagValue? && m[key].flag.active
  }

  /** The `checkIfBackgroundTab` answer: whether the key is present. */
  function IsBackgroundTab(m: Store, tab: int): bool {
    BackgroundTab(tab) in m
  }

  /** The `onRemoved` listener. */
  function TabRemoved(m: Store, tab: int): Store {
    m - {ScrapingState(tab), BackgroundTab(tab)}
  }

  /** The `onUpdated` listener: a finished load of a page outside the companies list clears the checkpoint. */
  function TabUpdated(m: Store, tab: int, complete: bool, url: Option<string>): Store {
    if complete && url.Some? && url.value != "" && !Includes(url.value, "getlatka.com/saas-companies") then
      ClearState(m, tab)
    else m
  }

  // What is stored where.

  /**
   * Get after save: a stored write reads back as the state; a write over quota followed by
   * a stored retry reads back as the minimal checkpoint; any other failure leaves the store
   * as it was and reports the error. No other key changes.
   */
  lemma SaveThenGet(m: Store, state: Checkpoint, tab: int, first: WriteResult, retry: WriteResult)
    ensures var s := SaveState(m, state, tab, first, retry);
      && (first.Stored? ==> s.outcome.SaveOk? && StateOf(s.store, tab) == Some(state))
      && (first.Rejected? && Includes(first.message, "QUOTA_BYTES") && retry.Stored? ==>
            s.outcome.SaveOk? && StateOf(s.store, tab) == Some(Minimal(state)))
      && (first.Rejected? && !Includes(first.message, "QUOTA_BYTES") ==> s == Saved(m, SaveFailed(first.message)))
      && (s.outcome.SaveFailed? ==> s.store == m)
      && (forall k | k != ScrapingState(tab) :: (k in s.store <==> k in m) && (k in m ==> s.store[k] == m[k]))
  {
  }

  /**
   * The minimal checkpoint keeps the progress fields, the time and the base URL, drops the
   * collected pages and is marked minimal. This is the field-by-field reading of
   * `Minimal`, the checkpoint that `SaveThenGet`'s quota fallback reads back.
   */
  lemma MinimalSpec(s: Checkpoint)
    ensures var r := Minimal(s);
      && r.isMultiPageScraping == s.isMultiPageScraping
      && r.currentPageIndex == s.currentPageIndex && r.totalPagesToScrape == s.totalPagesToScrape
      && r.timestamp == s.timestamp && r.baseUrl == s.baseUrl
      && r.allPagesData == [] && r.isMinimal
  {
  }

  /** Clearing removes exactly that tab's checkpoint; a cleared tab has none. */
  lemma ClearSpec(m: Store, tab: int)
    ensures StateOf(ClearState(m, tab), tab) == None
    ensures forall k | k != ScrapingState(tab) :: (k in ClearState(m, tab) <==> k in m) && (k in m ==> ClearState(m, tab)[k] == m[k])
  {
  }

  /**
   * A stored group is returned as it is, without creating one; without one, grouping that
   * is unsupported or fails at any step gives -1 and stores nothing; otherwise the new
   * group is stored for the primary tab and returned.
   */
  lemma GroupSpec(m: Store, primary: int, env: GroupEnv)
    ensures var r := GetOrCreateGroup(m, primary, env);
      && (GroupOf(m, primary).Some? ==> r == Grouped(m, GroupOf(m, primary).value.groupId))
      && (GroupOf(m, primary).None? && (!env.supported || env.created.None? || !env.storeOk) ==> r == Grouped(m, -1))
      && (GroupOf(m, primary).None? && env.supported && env.created.Some? && env.storeOk ==>
            r.groupId == env.created.value && GroupOf(r.store, primary) == Some(GroupInfo(r.groupId, primary, env.now)))
      && (forall k | k != ScrapingGroup(primary) :: (k in r.store <==> k in m) && (k in m ==> r.store[k] == m[k]))
  {
  }

  /**
   * Cleanup removes the group and the multi-page flag of the primary tab when a group is
   * stored and its tabs close, and changes nothing otherwise; after a cleanup that did its
   * work, cleaning up again changes nothing.
   */
  lemma CleanupSpec(m: Store, primary: int, tabsClosed: bool, again: bool)
    ensures GroupOf(m, primary).None? ==> Cleanup(m, primary, tabsClosed) == m
    ensures tabsClosed ==> GroupOf(Cleanup(m, primary, tabsClosed), primary).None?
    ensures tabsClosed ==> !MultiPageActive(Cleanup(m, primary, tabsClosed), primary) || GroupOf(m, primary).None?
    ensures tabsClosed ==> Cleanup(Cleanup(m, primary, tabsClosed), primary, again) == Cleanup(m, primary, tabsClosed)
    ensures forall k | k != ScrapingGroup(primary) && k != MultiPageScraping(primary) ::
              (k in Cleanup(m, primary, tabsClosed) <==> k in m) && (k in m ==> Cleanup(m, primary, tabsClosed)[k] == m[k])
  {
  }

  /**
   * A created worker tab is recorded with its primary tab, its URL and the group it was put
   * in, and the primary tab is marked as scraping several pages.
   */
  lemma CreateSpec(m: Store, url: string, primary: int, env: CreateEnv)
    ensures var c := CreateTab(m, url, primary, env);
      && (env.tab.None? ==> c == Creation(m, CreateFailed))
      && (c.result.TabCreated? ==>
            && c.result.tabId == env.tab.value
            && IsBackgroundTab(c.store, c.result.tabId)
            && c.store[BackgroundTab(c.result.tabId)] == TabValue(BackgroundTabInfo(primary, url, env.now, c.result.groupId))
            && MultiPageActive(c.store, primary)
            && c.result.groupId == GetOrCreateGroup(m, primary, env.group).groupId)
  {
  }

  /** Closing a tab removes its checkpoint and its worker record, and nothing else. */
  lemma TabRemovedSpec(m: Store, tab: int)
    ensures StateOf(TabRemoved(m, tab), tab) == None && !IsBackgroundTab(TabRemoved(m, tab), tab)
    ensures forall k | k != ScrapingState(tab) && k != BackgroundTab(tab) ::
              (k in TabRemoved(m, tab) <==> k in m) && (k in m ==> TabRemoved(m, tab)[k] == m[k])
  {
  }

  /**
   * A finished load of a non-empty URL outside getlatka.com/saas-companies clears the
   * tab's checkpoint; any other update leaves the store alone.
   */
  lemma TabUpdatedSpec(m: Store, tab: int, complete: bool, url: Option<string>)
    ensures var leaving := complete && url.Some? && url.value != "" && !Includes(url.value, "getlatka.com/saas-companies");
      && (leaving ==> StateOf(TabUpdated(m, tab, complete, url), tab) == None)
      && (!leaving ==> TabUpdated(m, tab, complete, url) == m)
  {
  }

  /** Every operation keeps each key holding the kind of value its prefix names. */
  lemma WellTypedKept(m: Store, tab: int, state: Checkpoint, first: WriteResult, retry: WriteResult,
                      genv: GroupEnv, tabsClosed: bool, url: string, cenv: CreateEnv, complete: bool, u: Option<string>)
    requires WellTyped(m)
    ensures WellTyped(SaveState(m, state, tab, first, retry).store)
    ensures WellTyped(ClearState(m, tab))
    ensures WellTyped(GetOrCreateGroup(m, tab, genv).store)
    ensures WellTyped(Cleanup(m, tab, tabsClosed))
    ensures WellTyped(CreateTab(m, url, tab, cenv).store)
    ensures WellTyped(TabRemoved(m, tab))
    ensures WellTyped(TabUpdated(m, tab, complete, u))
  {
    WellTypedGrouping(m, tab, genv, url, cenv);
  }

  /** The two operations that create a group or a worker tab keep the store well typed. */
  lemma WellTypedGrouping(m: Store, tab: int, genv: GroupEnv, url: string, cenv: CreateEnv)
    requires WellTyped(m)
    ensures WellTyped(GetOrCreateGroup(m, tab, genv).store)
    ensures WellTyped(CreateTab(m, url, tab, cenv).store)
  {
    var g := GetOrCreateGroup(m, tab, cenv.group);
    assert WellTyped(g.store);
  }

  /** The extension's `chrome.storage.local`, as the background script updates it. */
  class ExtensionStorage {
    var items: Store

    constructor ()
      ensures items == map[] && WellTyped(items)
    {
      items := map[];
    }

    /**
     * `saveScrapingState`: stores the checkpoint; when the store rejects it for exceeding
     * its quota, stores the minimal checkpoint instead; any other rejection is reported.
     */
    method SaveScrapingState(state: Checkpoint, tab: int, first: WriteResult, retry: WriteResult) returns (outcome: SaveOutcome)
      modifies this
      ensures Saved(items, outcome) == SaveState(old(items), state, tab, first, retry)
    {
      var key := ScrapingState(tab);
      if first.Stored? {
        items := items[key := StateValue(state)];
        return SaveOk;
      }
      if Includes(first.message, "QUOTA_BYTES") {
        var minimalState := Checkpoint(state.isMultiPageScraping, state.currentPageIndex, state.totalPagesToScrape,
                                       [], state.timestamp, state.baseUrl, true);
        if retry.Stored? {
          items := items[key := StateValue(minimalState)];
          return SaveOk;
        }
        return SaveFailed(retry.message);
      }
      return SaveFailed(first.message);
    }

    /** `getScrapingState`. */
    method GetScrapingState(tab: int) returns (state: Option<Checkpoint>)
      ensures state == StateOf(items, tab)
    {
      var key := ScrapingState(tab);
      if key in items && items[key].StateValue? {
        return Some(items[key].state);
      }
      return None;
    }

    /** `clearScrapingState`. */
    method ClearScrapingState(tab: int)
      modifies this
      ensures items == ClearState(old(items), tab)
    {
      items := items - {ScrapingState(tab)};
    }

    /** `getOrCreateScrapingGroup`. */
    method GetOrCreateScrapingGroup(primary: int, env: GroupEnv) returns (groupId: int)
      modifies this
      ensures Grouped(items, groupId) == GetOrCreateGroup(old(items), primary, env)
    {
      var key := ScrapingGroup(primary);
      if key in items && items[key].GroupValue? {
        return items[key].group.groupId;
      }
      if !env.supported {
        return -1;
      }
      if env.created.None? {
        return -1;
      }
      var group := env.created.value;
      if !env.storeOk {
        return -1;
      }
      items := items[key := GroupValue(GroupInfo(group, primary, env.now))];
      return group;
    }

    /** `cleanupScrapingGroup`. */
    method CleanupScrapingGroup(primary: int, tabsClosed: bool)
      modifies this
      ensures items == Cleanup(old(items), primary, tabsClosed)
    {
      var groupKey := ScrapingGroup(primary);
      if groupKey in items && items[groupKey].GroupValue? {
        if !tabsClosed {
          return;
        }
        items := items - {groupKey};
        items := items - {MultiPageScraping(primary)};
      }
    }

    /** The storage writes of `createBackgroundScrapingTab`. */
    method CreateBackgroundScrapingTab(url: string, primary: int, env: CreateEnv) returns (result: CreateResult)
      modifies this
      ensures Creation(items, result) == CreateTab(old(items), url, primary, env)
    {
      if env.tab.None? {
        return CreateFailed;
      }
      var tab := env.tab.value;
      var groupId := GetOrCreateScrapingGroup(primary, env.group);
      if groupId != -1 && !env.joinOk {
        return CreateFailed;
      }
      items := items[BackgroundTab(tab) := TabValue(BackgroundTabInfo(primary, url, env.now, groupId))];
      items := items[MultiPageScraping(primary) := FlagValue(MultiPageFlag(true, groupId, env.now))];
      return TabCreated(tab, groupId);
    }

    /** The `onRemoved` listener. */
    method OnRemoved(tab: int)
      modifies this
      ensures items == TabRemoved(old(items), tab)
    {
      ClearScrapingState(tab);
      items := items - {BackgroundTab(tab)};
    }

    /** The `onUpdated` listener. */
    method OnUpdated(tab: int, complete: bool, url: Option<string>)
      modifies this
      ensures items == TabUpdated(old(items), tab, complete, url)
    {
      if complete && url.Some? && url.value != "" {
        if !Includes(url.value, "getlatka.com/saas-companies") {
          ClearScrapingState(tab);
        }
      }
    }
  }

  /** `sendScrapingInstruction`'s default number of attempts, and its pause between them. */
  const DefaultRetries := 3
  const RetryDelayMs := 2000

  /** Whether attempt `i` (from 0) reaches the worker tab. */
  predicate Delivered(outcomes: seq<bool>, i: nat) {
    i < |outcomes| && outcomes[i]
  }

  /**
   * `sendScrapingInstruction`: tries up to `retries` times, stops at the first delivery,
   * pauses between attempts but not after the last, and returns normally either way.
   * Reports how many attempts were made, how long it paused and whether one got through.
   */
  method SendScrapingInstruction(retries: int, outcomes: seq<bool>) returns (attempts: nat, waitedMs: nat, delivered: bool)
    ensures attempts <= Max(retries, 0)
    ensures forall i | 0 <= i && i + 1 < attempts :: !Delivered(outcomes, i)
    ensures delivered ==> attempts >= 1 && Delivered(outcomes, attempts - 1)
    ensures !delivered ==> attempts == Max(retries, 0) && forall i | 0 <= i < attempts :: !Delivered(outcomes, i)
    ensures waitedMs == RetryDelayMs * Max(attempts - 1, 0)
  {
    attempts, waitedMs, delivered := 0, 0, false;
    var i := 0;
    while i < retries
      invariant 0 <= i <= Max(retries, 0)
      invariant attempts == i
      invariant forall j | 0 <= j < i :: !Delivered(outcomes, j)
      invariant waitedMs == RetryDelayMs * (if i == retries && i > 0 then i - 1 else i)
    {
      attempts := attempts + 1;
      if i < |outcomes| && outcomes[i] {
        delivered := true;
        return;
      }
      if i < retries - 1 {
        waitedMs := waitedMs + RetryDelayMs;
      }
      i := i + 1;
    }
  }

  /** `searchParams.get('page') || '1'`: the page query parameter, or "1" when absent or empty. */
  function PageParam(query: Option<string>): string {
    if query.Some? && query.value != "" then query.value else "1"
  }

  /** The value of a digit in base 10 or 16, or -1 for any other character. */
  function DigitOf(c: char, radix: int): int {
    if '0' <= c <= '9' then c as int - '0' as int
    else if radix == 16 && 'a' <= c <= 'f' then c as int - 'a' as int + 10
    else if radix == 16 && 'A' <= c <= 'F' then c as int - 'A' as int + 10
    else -1
  }

  /** The length of the longest prefix of digits. */
  function DigitRun(s: string, radix: int): (n: nat)
    ensures n <= |s|
    decreases |s|
  {
    if |s| > 0 && DigitOf(s[0], radix) >= 0 then 1 + DigitRun(s[1..], radix) else 0
  }

  /** The number a string of digits denotes. */
  function DigitsValue(ds: string, radix: int): int
    decreases |ds|
  {
    if |ds| == 0 then 0 else DigitsValue(ds[..|ds| - 1], radix) * radix + DigitOf(ds[|ds| - 1], radix)
  }

  /**
   * `parseInt(s)` without a radix: leading white space skipped, an optional sign, a "0x" or
   * "0X" prefix selecting base 16, then the longest run of digits; nothing (NaN) without
   * one.
   */
  function ParseInt(s: string): Option<int> {
    var t := TrimStart(s);
    var negative := |t| > 0 && t[0] == '-';
    var u := if |t| > 0 && (t[0] == '-' || t[0] == '+') then t[1..] else t;
    var radix := if |u| >= 2 && u[0] == '0' && (u[1] == 'x' || u[1] == 'X') then 16 else 10;
    var d := if radix == 16 then u[2..] else u;
    var n := DigitRun(d, radix);
    if n == 0 then None
    else Some(if negative then -DigitsValue(d[..n], radix) else DigitsValue(d[..n], radix))
  }

  /** The decimal numeral of a natural number. */
  function DecimalString(n: nat): (s: string)
    ensures |s| >= 1
    ensures forall i | 0 <= i < |s| :: '0' <= s[i] <= '9'
  {
    if n < 10 then [('0' as int + n) as char]
    else DecimalString(n / 10) + [('0' as int + n % 10) as char]
  }

  lemma {:induction false} DigitRunAll(s: string, radix: int)
    requires forall i | 0 <= i < |s| :: '0' <= s[i] <= '9'
    ensures DigitRun(s, radix) == |s|
    decreases |s|
  {
    if |s| > 0 {
      DigitRunAll(s[1..], radix);
    }
  }

  lemma {:induction false} DecimalValue(n: nat)
    ensures DigitsValue(DecimalString(n), 10) == n
  {
    var s := DecimalString(n);
    if n >= 10 {
      DecimalValue(n / 10);
      assert s[..|s| - 1] == DecimalString(n / 10);
    }
  }

  /** `parseInt` reads a decimal numeral back as its number. */
  lemma ParseIntDecimal(n: nat)
    ensures ParseInt(DecimalString(n)) == Some(n)
  {
    ParseIntDigits(DecimalString(n));
    DecimalValue(n);
  }

  /** A non-empty string of decimal digits parses as the number it denotes in base 10. */
  lemma ParseIntDigits(s: string)
    requires |s| >= 1 && forall i | 0 <= i < |s| :: '0' <= s[i] <= '9'
    ensures ParseInt(s) == Some(DigitsValue(s, 10))
  {
    assert TrimStart(s) == s by {
      assert !IsSpace(s[0]);
    }
    assert s[0] != '-' && s[0] != '+';
    assert |s| >= 2 ==> s[1] != 'x' && s[1] != 'X';
    DigitRunAll(s, 10);
    assert s[..|s|] == s;
  }

  /**
   * The page a worker tab is told to scrape: page 1 without a `page` parameter, and the
   * parameter's number when it is a decimal numeral.
   */
  lemma DispatchedPage(query: Option<string>, n: nat)
    ensures (query.None? || query == Some("")) ==> ParseInt(PageParam(query)) == Some(1)
    ensures query == Some(DecimalString(n)) ==> ParseInt(PageParam(query)) == Some(n)
  {
    ParseIntDecimal(1);
    assert DecimalString(1) == "1";
    ParseIntDecimal(n);
  }
}
