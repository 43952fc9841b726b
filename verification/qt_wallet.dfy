/**
 * The wallet tab: its sync-status machine and the two sync timers, the cached
 * display balance, the choice of a backup file name, the wallet's lock file, the
 * decision which update a cache refresh emits, the end of PSBT creation, and
 * dropping addresses onto a category.
 */
module QtWallet {
  import opened Wrappers
  import Strings

  datatype SyncStatus = Unknown | Syncing | Synced | SyncError

  /** A wallet balance; `Balance()` with no arguments is all zeros. */
  datatype Balance = Balance(confirmed: int, pending: int)

  const EmptyBalance := Balance(0, 0)

  datatype Reason = TransactionChange | ForceRefresh | ChainHeightAdvanced | CreatePSBT | UserInput

  /** The update filter emitted on the wallet's `updated` signal. */
  datatype WalletUpdate = WalletUpdate(
    refreshAll: bool,
    reason: Reason,
    addresses: set<string>,
    categories: set<string>,
    txids: set<string>)

  /** The signals the tab emits, in the order it emits them. */
  datatype Event =
    | StatusChanged(status: SyncStatus)
    | Updated(filter: WalletUpdate)
    | SyncWorkerStarted
    | AfterSync(status: SyncStatus)
    | OpenTxLike
    | FinishedPsbtCreation

  function FullRefresh(reason: Reason): WalletUpdate {
    WalletUpdate(true, reason, {}, {}, {})
  }

  /**
   * What a cache refresh emits once the caches are filled: a full update when forced
   * or when transactions changed (its reason telling which), else a chain-height
   * update when the height advanced, else nothing.
   */
  function RefreshEvents(forceUiRefresh: bool, changed: bool, chainHeightAdvanced: bool): (r: seq<Event>)
    ensures |r| <= 1
    ensures |r| == 1 && r[0].Updated? && r[0].filter.refreshAll <==> forceUiRefresh || changed
    ensures |r| == 1 && r[0] == Updated(FullRefresh(TransactionChange)) <==> changed
    ensures |r| == 1 && r[0] == Updated(FullRefresh(ForceRefresh)) <==> forceUiRefresh && !changed
    ensures |r| == 1 && r[0].Updated? && r[0].filter.reason == ChainHeightAdvanced
      <==> !forceUiRefresh && !changed && chainHeightAdvanced
    ensures r == [] <==> !forceUiRefresh && !changed && !chainHeightAdvanced
  {
    if forceUiRefresh || changed then
      [Updated(FullRefresh(if changed then TransactionChange else ForceRefresh))]
    else if chainHeightAdvanced then
      [Updated(WalletUpdate(false, ChainHeightAdvanced, {}, {}, {}))]
    else []
  }

  /**
   * What comparing the transaction caches found: whether anything changed, whether
   * transactions were removed, and whether the follow-up refresh that a removal
   * triggers finds a change again.
   */
  datatype CacheDelta = CacheDelta(changed: bool, removedTxs: bool, changedOnRecheck: bool)

  /**
   * The events of one cache refresh: its own update, then, when it handled removed
   * transactions, the forced full refresh that handling starts (its completion runs
   * after the first refresh's own update has been emitted).
   */
  function DeltaEvents(forceUiRefresh: bool, delta: CacheDelta, chainHeightAdvanced: bool): (r: seq<Event>)
    ensures |r| <= 2
    ensures |r| == 2 <==> (forceUiRefresh || delta.changed) && delta.removedTxs
    ensures r[..if |r| < 1 then |r| else 1] == RefreshEvents(forceUiRefresh, delta.changed, chainHeightAdvanced)
    ensures |r| == 2 ==>
      r[1].Updated? && r[1].filter.refreshAll && (r[1].filter.reason == TransactionChange <==> delta.changedOnRecheck)
  {
    RefreshEvents(forceUiRefresh, delta.changed, chainHeightAdvanced)
    + (if (forceUiRefresh || delta.changed) && delta.removedTxs
       then RefreshEvents(true, delta.changedOnRecheck, false) else [])
  }

  // ----- paths -----

  /** A path as `pathlib` splits it: the parent directory and the final component. */
  datatype Path = Path(parent: string, name: string)

  /** `PurePath.suffix`: from the last '.', unless that dot starts or ends the name. */
  function Suffix(name: string): (r: string)
    ensures |r| <= |name| && (r != "" ==> r[0] == '.' && name[|name| - |r|..] == r && |r| < |name|)
  {
    match Strings.LastIndexOf(name, '.')
    case None => ""
    case Some(i) => if 0 < i < |name| - 1 then name[i..] else ""
  }

  /** `with_suffix(".lock")`; a path without a name is a `ValueError`. */
  function LockfilePath(p: Path): (r: Result<Path>)
    ensures r.Err? <==> p.name == ""
    ensures r.Ok? ==> r.value.parent == p.parent && Strings.EndsWith(r.value.name, ".lock")
    ensures r.Ok? ==> r.value.name == Stem(p.name) + ".lock"
  {
    if p.name == "" then Err("ValueError")
    else Ok(Path(p.parent, Stem(p.name) + ".lock"))
  }

  /** `PurePath.stem`: the name without its suffix. */
  function Stem(name: string): (r: string)
    ensures r + Suffix(name) == name
  {
    name[..|name| - |Suffix(name)|]
  }

  /** A name whose suffix was replaced keeps a non-empty stem. */
  lemma StemNonEmpty(name: string)
    requires name != ""
    ensures |name| - |Suffix(name)| > 0
  {
    match Strings.LastIndexOf(name, '.')
    case None =>
    case Some(i) =>
      if 0 < i < |name| - 1 {
        assert |Suffix(name)| == |name| - i;
      }
  }

  /** The suffix of `stem + ".lock"` is ".lock" whenever the stem is not empty. */
  lemma LockSuffix(stem: string)
    requires stem != ""
    ensures Suffix(stem + ".lock") == ".lock"
  {
    var lock := stem + ".lock";
    assert lock[|stem|] == '.';
    assert forall j :: |stem| < j < |lock| ==> lock[j] != '.';
    var dot := Strings.LastIndexOf(lock, '.');
    assert forall j :: dot.value < j < |lock| ==> lock[j] == lock[dot.value + 1..][j - dot.value - 1];
    assert dot.value == |stem|;
  }

  /** The lock file of a lock file is itself: replacing the suffix again changes nothing. */
  lemma LockfilePathIdempotent(p: Path)
    requires p.name != ""
    ensures LockfilePath(p).Ok? && LockfilePath(LockfilePath(p).value) == LockfilePath(p)
  {
    StemNonEmpty(p.name);
    var stem := Stem(p.name);
    var lock := stem + ".lock";
    LockSuffix(stem);
    assert lock[..|lock| - 5] == stem;
  }

  /** `{wallet_dir}/backups/{wallet_id}-backup-{i}`. */
  function BackupPath(walletDir: string, walletId: string, i: nat): Path {
    Path(walletDir + "/backups", walletId + "-backup-" + Strings.NatToString(i))
  }

  /** Distinct numbers give distinct backup files. */
  lemma BackupPathInjective(walletDir: string, walletId: string, i: nat, j: nat)
    requires BackupPath(walletDir, walletId, i) == BackupPath(walletDir, walletId, j)
    ensures i == j
  {
    var prefix := walletId + "-backup-";
    assert Strings.NatToString(i) == (prefix + Strings.NatToString(i))[|prefix|..];
    assert Strings.NatToString(j) == (prefix + Strings.NatToString(j))[|prefix|..];
    Strings.NatToStringInjective(i, j);
  }

  const MaxNumberBackups: nat := 100000

  // ----- the wallet tab -----

  class QtWallet {
    var syncStatus: SyncStatus
    var retryTimerActive: bool
    var regularTimerActive: bool
    var lastSyncChainHeight: int
    /** The `display_balance` entry of the wallet's data dump. */
    var cachedDisplayBalance: Option<Balance>
    /** The wrapped wallet's live balance and chain height. */
    var walletBalance: Balance
    var walletHeight: int
    /** The wallet's address categories (its labels). */
    var categories: map<string, string>
    var events: seq<Event>
    /** The files that exist on disk, as far as the tab looks at them. */
    var files: set<Path>

    /**
     * A new tab starts with status unknown and both timers running; the cached balance
     * is whatever the wallet's saved data dump holds.
     */
    constructor(walletBalance: Balance, walletHeight: int, categories: map<string, string>, files: set<Path>,
                cachedDisplayBalance: Option<Balance>)
      ensures syncStatus == Unknown && retryTimerActive && regularTimerActive
      ensures lastSyncChainHeight == 0 && this.cachedDisplayBalance == cachedDisplayBalance && events == []
      ensures this.walletBalance == walletBalance && this.walletHeight == walletHeight
      ensures this.categories == categories && this.files == files
    {
      syncStatus := Unknown;
      lastSyncChainHeight := 0;
      this.cachedDisplayBalance := cachedDisplayBalance;
      this.walletBalance := walletBalance;
      this.walletHeight := walletHeight;
      this.categories := categories;
      events := [];
      this.files := files;
      retryTimerActive := true;
      regularTimerActive := true;
    }

    /** The live balance once synced; otherwise the cached one, or an empty balance. */
    function GetDisplayBalance(): (b: Balance)
      reads this
      ensures syncStatus == Synced ==> b == walletBalance
      ensures syncStatus != Synced && cachedDisplayBalance.Some? ==> b == cachedDisplayBalance.value
      ensures syncStatus != Synced && cachedDisplayBalance.None? ==> b == EmptyBalance
    {
      if syncStatus == Synced then walletBalance else cachedDisplayBalance.GetOr(EmptyBalance)
    }

    /** Writes the cache, and only when synced. */
    method UpdateDisplayBalance()
      modifies this
      ensures cachedDisplayBalance == if syncStatus == Synced then Some(walletBalance) else old(cachedDisplayBalance)
      ensures syncStatus == old(syncStatus) && events == old(events) && walletBalance == old(walletBalance)
      ensures retryTimerActive == old(retryTimerActive) && regularTimerActive == old(regularTimerActive)
      ensures lastSyncChainHeight == old(lastSyncChainHeight) && walletHeight == old(walletHeight)
      ensures categories == old(categories) && files == old(files)
    {
      if syncStatus == Synced {
        cachedDisplayBalance := Some(walletBalance);
      }
    }

    /** Sets the status and emits it; the emission refreshes the cached display balance. */
    method SetSyncStatus(status: SyncStatus)
      modifies this
      ensures syncStatus == status && events == old(events) + [StatusChanged(status)]
      ensures cachedDisplayBalance == if status == Synced then Some(walletBalance) else old(cachedDisplayBalance)
      ensures walletBalance == old(walletBalance) && walletHeight == old(walletHeight)
      ensures retryTimerActive == old(retryTimerActive) && regularTimerActive == old(regularTimerActive)
      ensures lastSyncChainHeight == old(lastSyncChainHeight)
      ensures categories == old(categories) && files == old(files)
    {
      syncStatus := status;
      events := events + [StatusChanged(status)];
      UpdateDisplayBalance();
    }

    /** `refresh_caches_and_ui_lists`, with `delta` the outcome of comparing the transaction caches. */
    method RefreshCachesAndUiLists(forceUiRefresh: bool, chainHeightAdvanced: bool, delta: CacheDelta)
      modifies this
      ensures events == old(events) + DeltaEvents(forceUiRefresh, delta, chainHeightAdvanced)
      ensures syncStatus == old(syncStatus) && cachedDisplayBalance == old(cachedDisplayBalance)
      ensures walletBalance == old(walletBalance) && walletHeight == old(walletHeight)
      ensures retryTimerActive == old(retryTimerActive) && regularTimerActive == old(regularTimerActive)
      ensures lastSyncChainHeight == old(lastSyncChainHeight)
      ensures categories == old(categories) && files == old(files)
    {
      if forceUiRefresh || delta.changed {
        var reason := if delta.changed then TransactionChange else ForceRefresh;
        events := events + [Updated(WalletUpdate(true, reason, {}, {}, {}))];
        if delta.removedTxs {
          // `hanlde_removed_txs` starts a forced refresh, which completes afterwards
          var again := if delta.changedOnRecheck then TransactionChange else ForceRefresh;
          events := events + [Updated(WalletUpdate(true, again, {}, {}, {}))];
        }
      } else if chainHeightAdvanced {
        events := events + [Updated(WalletUpdate(false, ChainHeightAdvanced, {}, {}, {}))];
      }
    }

    /**
     * `sync`: nothing while a sync is running; otherwise the caches are refreshed
     * (emitting an update only if transactions changed), the status becomes syncing,
     * and only then the worker starts.
     */
    method Sync(delta: CacheDelta)
      modifies this
      ensures old(syncStatus) == Syncing ==> events == old(events) && syncStatus == Syncing
      ensures old(syncStatus) != Syncing ==>
        syncStatus == Syncing
        && events == old(events) + DeltaEvents(false, delta, false) + [StatusChanged(Syncing), SyncWorkerStarted]
      ensures cachedDisplayBalance == old(cachedDisplayBalance)
      ensures walletBalance == old(walletBalance) && walletHeight == old(walletHeight)
      ensures retryTimerActive == old(retryTimerActive) && regularTimerActive == old(regularTimerActive)
      ensures lastSyncChainHeight == old(lastSyncChainHeight)
      ensures categories == old(categories) && files == old(files)
    {
      if syncStatus == Syncing {
        return;
      }
      RefreshCachesAndUiLists(false, false, delta);
      SetSyncStatus(Syncing);
      events := events + [SyncWorkerStarted];
    }

    /**
     * The worker's success: the wallet now has `height` and `balance`; the status
     * becomes synced (caching the balance), the lists refresh with "chain height
     * advanced" when the height differs from the last sync's, and the height is kept.
     */
    method OnSyncSuccess(height: int, balance: Balance, delta: CacheDelta)
      modifies this
      ensures syncStatus == Synced && lastSyncChainHeight == height
      ensures cachedDisplayBalance == Some(balance) && walletBalance == balance && walletHeight == height
      ensures events == old(events) + [StatusChanged(Synced)]
        + DeltaEvents(false, delta, height != old(lastSyncChainHeight)) + [AfterSync(Synced)]
      ensures retryTimerActive == old(retryTimerActive) && regularTimerActive == old(regularTimerActive)
      ensures categories == old(categories) && files == old(files)
    {
      walletHeight := height;
      walletBalance := balance;
      SetSyncStatus(Synced);
      RefreshCachesAndUiLists(false, walletHeight != lastSyncChainHeight, delta);
      lastSyncChainHeight := walletHeight;
      events := events + [AfterSync(syncStatus)];
    }

    /** The worker's failure: the status becomes error; the cache is kept. */
    method OnSyncError()
      modifies this
      ensures syncStatus == SyncError && events == old(events) + [StatusChanged(SyncError)]
      ensures cachedDisplayBalance == old(cachedDisplayBalance)
      ensures walletBalance == old(walletBalance) && walletHeight == old(walletHeight)
      ensures retryTimerActive == old(retryTimerActive) && regularTimerActive == old(regularTimerActive)
      ensures lastSyncChainHeight == old(lastSyncChainHeight)
      ensures categories == old(categories) && files == old(files)
    {
      SetSyncStatus(SyncError);
    }

    /** The retry timer syncs only when neither syncing nor synced. */
    method RetryTimerTick(delta: CacheDelta)
      modifies this
      ensures old(syncStatus) in {Syncing, Synced} ==> events == old(events) && syncStatus == old(syncStatus)
      ensures old(syncStatus) !in {Syncing, Synced} ==>
        syncStatus == Syncing
        && events == old(events) + DeltaEvents(false, delta, false) + [StatusChanged(Syncing), SyncWorkerStarted]
      ensures cachedDisplayBalance == old(cachedDisplayBalance) && lastSyncChainHeight == old(lastSyncChainHeight)
      ensures retryTimerActive == old(retryTimerActive) && regularTimerActive == old(regularTimerActive)
      ensures walletBalance == old(walletBalance) && walletHeight == old(walletHeight)
      ensures categories == old(categories) && files == old(files)
    {
      if syncStatus == Syncing || syncStatus == Synced {
        return;
      }
      Sync(delta);
    }

    /** The regular timer syncs again only when synced. */
    method RegularTimerTick(delta: CacheDelta)
      modifies this
      ensures old(syncStatus) != Synced ==> events == old(events) && syncStatus == old(syncStatus)
      ensures old(syncStatus) == Synced ==>
        syncStatus == Syncing
        && events == old(events) + DeltaEvents(false, delta, false) + [StatusChanged(Syncing), SyncWorkerStarted]
      ensures cachedDisplayBalance == old(cachedDisplayBalance) && lastSyncChainHeight == old(lastSyncChainHeight)
      ensures retryTimerActive == old(retryTimerActive) && regularTimerActive == old(regularTimerActive)
      ensures walletBalance == old(walletBalance) && walletHeight == old(walletHeight)
      ensures categories == old(categories) && files == old(files)
    {
      if syncStatus != Synced {
        return;
      }
      Sync(delta);
    }

    /** Starting a running timer does nothing; otherwise it starts. */
    method StartSyncRetryTimer()
      modifies this
      ensures retryTimerActive && regularTimerActive == old(regularTimerActive)
      ensures syncStatus == old(syncStatus) && events == old(events)
      ensures cachedDisplayBalance == old(cachedDisplayBalance) && lastSyncChainHeight == old(lastSyncChainHeight)
      ensures walletBalance == old(walletBalance) && walletHeight == old(walletHeight)
      ensures categories == old(categories) && files == old(files)
    {
      if retryTimerActive {
        return;
      }
      retryTimerActive := true;
    }

    method StartSyncRegularlyTimer()
      modifies this
      ensures regularTimerActive && retryTimerActive == old(retryTimerActive)
      ensures syncStatus == old(syncStatus) && events == old(events)
      ensures cachedDisplayBalance == old(cachedDisplayBalance) && lastSyncChainHeight == old(lastSyncChainHeight)
      ensures walletBalance == old(walletBalance) && walletHeight == old(walletHeight)
      ensures categories == old(categories) && files == old(files)
    {
      if regularTimerActive {
        return;
      }
      regularTimerActive := true;
    }

    method StopSyncTimer()
      modifies this
      ensures !retryTimerActive && !regularTimerActive
      ensures syncStatus == old(syncStatus) && events == old(events)
      ensures cachedDisplayBalance == old(cachedDisplayBalance) && lastSyncChainHeight == old(lastSyncChainHeight)
      ensures walletBalance == old(walletBalance) && walletHeight == old(walletHeight)
      ensures categories == old(categories) && files == old(files)
    {
      retryTimerActive := false;
      regularTimerActive := false;
    }

    /**
     * `save_backup`: the first of `{id}-backup-0`, `-1`, ... below 100000 that does
     * not exist (the last candidate when all exist); the wallet is then saved there.
     */
    method SaveBackup(walletDir: string, walletId: string) returns (filename: Path)
      modifies this
      ensures exists i :: (0 <= i < MaxNumberBackups
        && filename == BackupPath(walletDir, walletId, i)
        && (forall j :: 0 <= j < i ==> BackupPath(walletDir, walletId, j) in old(files))
        && (filename !in old(files) || i == MaxNumberBackups - 1))
      ensures files == old(files) + {filename}
      ensures syncStatus == old(syncStatus) && events == old(events) && categories == old(categories)
      ensures cachedDisplayBalance == old(cachedDisplayBalance) && lastSyncChainHeight == old(lastSyncChainHeight)
      ensures walletBalance == old(walletBalance) && walletHeight == old(walletHeight)
      ensures retryTimerActive == old(retryTimerActive) && regularTimerActive == old(regularTimerActive)
    {
      filename := BackupPath(walletDir, walletId, 0);
      ghost var chosen := 0;
      var i := 0;
      while i < MaxNumberBackups
        invariant 0 <= i <= MaxNumberBackups && 0 <= chosen < MaxNumberBackups
        invariant filename == BackupPath(walletDir, walletId, chosen)
        invariant i == 0 ==> chosen == 0
        invariant i > 0 ==> chosen == i - 1
        invariant forall j :: 0 <= j < i ==> BackupPath(walletDir, walletId, j) in files
        decreases MaxNumberBackups - i
      {
        filename := BackupPath(walletDir, walletId, i);
        chosen := i;
        if filename !in files {
          break;
        }
        i := i + 1;
      }
      files := files + {filename};
    }

    /** `get_wallet_lockfile`: `None` when the lock file already exists, else it is created. */
    method GetWalletLockfile(walletFile: Path) returns (r: Result<Option<Path>>)
      modifies this
      ensures r.Err? <==> walletFile.name == ""
      ensures r.Ok? ==> var lock := LockfilePath(walletFile).value;
        && (r.value.None? <==> lock in old(files))
        && (r.value.Some? ==> r.value.value == lock)
        && files == old(files) + {lock}
      ensures r.Err? ==> files == old(files)
      ensures syncStatus == old(syncStatus) && events == old(events) && categories == old(categories)
      ensures cachedDisplayBalance == old(cachedDisplayBalance) && lastSyncChainHeight == old(lastSyncChainHeight)
      ensures walletBalance == old(walletBalance) && walletHeight == old(walletHeight)
      ensures retryTimerActive == old(retryTimerActive) && regularTimerActive == old(regularTimerActive)
    {
      var lock := LockfilePath(walletFile);
      if lock.Err? {
        return Err(lock.error);
      }
      if lock.value in files {
        return Ok(None);
      }
      files := files + {lock.value};
      r := Ok(Some(lock.value));
    }

    /**
     * The end of PSBT creation. `completedSteps` is how many of the success path's
     * steps (emit the update, open the transaction) ran before an exception, `None`
     * when none was raised. Every path emits "finished" exactly once, and last.
     */
    method PsbtOnDone(outcome: PsbtOutcome, completedSteps: Option<nat>)
      modifies this
      ensures events == old(events) + PsbtDoneEvents(outcome, completedSteps)
      ensures syncStatus == old(syncStatus) && files == old(files) && categories == old(categories)
      ensures cachedDisplayBalance == old(cachedDisplayBalance) && lastSyncChainHeight == old(lastSyncChainHeight)
      ensures walletBalance == old(walletBalance) && walletHeight == old(walletHeight)
      ensures retryTimerActive == old(retryTimerActive) && regularTimerActive == old(regularTimerActive)
    {
      if outcome.NoResult? {
        events := events + [FinishedPsbtCreation];
        return;
      }
      if outcome.Raised? {
        events := events + [FinishedPsbtCreation];
        return;
      }
      if outcome.Other? {
        events := events + [FinishedPsbtCreation];
        return;
      }
      var steps := if completedSteps.Some? then completedSteps.value else 2;
      if steps >= 1 {
        events := events + [Updated(WalletUpdate(false, CreatePSBT, outcome.addresses, {}, {}))];
      }
      if steps >= 2 {
        events := events + [OpenTxLike];
      }
      events := events + [FinishedPsbtCreation];
    }

    /** The worker itself failed: "finished" is emitted. */
    method PsbtOnError()
      modifies this
      ensures events == old(events) + [FinishedPsbtCreation]
      ensures syncStatus == old(syncStatus) && files == old(files) && categories == old(categories)
      ensures cachedDisplayBalance == old(cachedDisplayBalance) && lastSyncChainHeight == old(lastSyncChainHeight)
      ensures walletBalance == old(walletBalance) && walletHeight == old(walletHeight)
      ensures retryTimerActive == old(retryTimerActive) && regularTimerActive == old(regularTimerActive)
    {
      events := events + [FinishedPsbtCreation];
    }

    /** The inner loop of `set_category`: one address gets each tag in turn. */
    method TagAddress(address: string, tags: seq<string>)
      modifies this
      ensures categories == if tags == [] then old(categories) else old(categories)[address := tags[|tags| - 1]]
      ensures events == old(events) && syncStatus == old(syncStatus) && files == old(files)
      ensures cachedDisplayBalance == old(cachedDisplayBalance) && lastSyncChainHeight == old(lastSyncChainHeight)
      ensures walletBalance == old(walletBalance) && walletHeight == old(walletHeight)
      ensures retryTimerActive == old(retryTimerActive) && regularTimerActive == old(regularTimerActive)
    {
      for j := 0 to |tags|
        invariant categories == if j == 0 then old(categories) else old(categories)[address := tags[j - 1]]
        invariant events == old(events) && syncStatus == old(syncStatus) && files == old(files)
        invariant cachedDisplayBalance == old(cachedDisplayBalance) && lastSyncChainHeight == old(lastSyncChainHeight)
        invariant walletBalance == old(walletBalance) && walletHeight == old(walletHeight)
        invariant retryTimerActive == old(retryTimerActive) && regularTimerActive == old(regularTimerActive)
      {
        categories := categories[address := tags[j]];
      }
    }

    /** The tagging loop of `set_category`: each address in turn gets every tag, so the last one. */
    method TagAll(addresses: seq<string>, tags: seq<string>)
      modifies this
      ensures categories == if tags == [] then old(categories) else AssignAll(old(categories), addresses, tags[|tags| - 1])
      ensures events == old(events) && syncStatus == old(syncStatus) && files == old(files)
      ensures cachedDisplayBalance == old(cachedDisplayBalance) && lastSyncChainHeight == old(lastSyncChainHeight)
      ensures walletBalance == old(walletBalance) && walletHeight == old(walletHeight)
      ensures retryTimerActive == old(retryTimerActive) && regularTimerActive == old(regularTimerActive)
    {
      for i := 0 to |addresses|
        invariant categories == if tags == [] then old(categories) else AssignAll(old(categories), addresses[..i], tags[|tags| - 1])
        invariant events == old(events) && syncStatus == old(syncStatus) && files == old(files)
        invariant cachedDisplayBalance == old(cachedDisplayBalance) && lastSyncChainHeight == old(lastSyncChainHeight)
        invariant walletBalance == old(walletBalance) && walletHeight == old(walletHeight)
        invariant retryTimerActive == old(retryTimerActive) && regularTimerActive == old(regularTimerActive)
      {
        assert addresses[..i + 1][..i] == addresses[..i];
        TagAddress(addresses[i], tags);
      }
      assert addresses[..|addresses|] == addresses;
    }

    /**
     * `set_category`: every dropped address gets each dropped tag in turn, so the last
     * tag wins; one update names the addresses, the tags and every involved txid.
     */
    method SetCategory(addresses: seq<string>, tags: seq<string>, involvedTxids: map<string, set<string>>)
      requires forall a :: a in addresses ==> a in involvedTxids
      modifies this
      ensures tags == [] ==> categories == old(categories)
      ensures tags != [] ==>
        (forall a :: a in categories <==> a in old(categories) || a in addresses)
        && (forall a :: a in addresses ==> categories[a] == tags[|tags| - 1])
        && (forall a :: a in old(categories) && a !in addresses ==> categories[a] == old(categories)[a])
      ensures events == old(events) + [Updated(WalletUpdate(false, UserInput,
        (set a | a in addresses), (set t | t in tags), InvolvedTxids(addresses, involvedTxids)))]
      ensures syncStatus == old(syncStatus) && files == old(files)
      ensures cachedDisplayBalance == old(cachedDisplayBalance) && lastSyncChainHeight == old(lastSyncChainHeight)
      ensures walletBalance == old(walletBalance) && walletHeight == old(walletHeight)
      ensures retryTimerActive == old(retryTimerActive) && regularTimerActive == old(regularTimerActive)
    {
      TagAll(addresses, tags);
      if tags != [] {
        AssignAllSpec(old(categories), addresses, tags[|tags| - 1]);
      }
      var txids := CollectInvolvedTxids(addresses, involvedTxids);
      events := events + [Updated(WalletUpdate(false, UserInput, (set a | a in addresses), (set t | t in tags), txids))];
    }
  }

  /** The txids of `set_category`'s update: the loop gathers those of every address. */
  method CollectInvolvedTxids(addresses: seq<string>, involvedTxids: map<string, set<string>>) returns (txids: set<string>)
    requires forall a :: a in addresses ==> a in involvedTxids
    ensures txids == InvolvedTxids(addresses, involvedTxids)
  {
    txids := {};
    for i := 0 to |addresses|
      invariant txids == InvolvedTxids(addresses[..i], involvedTxids)
    {
      assert addresses[..i + 1][..i] == addresses[..i];
      txids := txids + involvedTxids[addresses[i]];
    }
    assert addresses[..|addresses|] == addresses;
  }

  /** `m` with every key of `xs` set to `v`, in order. */
  function AssignAll(m: map<string, string>, xs: seq<string>, v: string): map<string, string> {
    if xs == [] then m
    else AssignAll(m, xs[..|xs| - 1], v)[xs[|xs| - 1] := v]
  }

  /** Assigning `v` to every key of `xs` adds those keys, gives them `v` and leaves the others alone. */
  lemma {:induction false} AssignAllSpec(m: map<string, string>, xs: seq<string>, v: string)
    ensures forall a :: a in AssignAll(m, xs, v) <==> a in m || a in xs
    ensures forall a :: a in xs ==> AssignAll(m, xs, v)[a] == v
    ensures forall a :: a in m && a !in xs ==> AssignAll(m, xs, v)[a] == m[a]
  {
    if xs != [] {
      var n := |xs| - 1;
      AssignAllSpec(m, xs[..n], v);
      assert xs == xs[..n] + [xs[n]];
    }
  }

  /** The result handed to the PSBT worker's completion callback. */
  datatype PsbtOutcome =
    | NoResult
    | Raised
    | Other
    | Built(addresses: set<string>)

  /** The events of the completion callback: "finished" comes exactly once, at the end. */
  function PsbtDoneEvents(outcome: PsbtOutcome, completedSteps: Option<nat>): (r: seq<Event>)
    ensures |r| >= 1 && r[|r| - 1] == FinishedPsbtCreation
    ensures forall k :: 0 <= k < |r| - 1 ==> r[k] != FinishedPsbtCreation
    ensures !outcome.Built? ==> r == [FinishedPsbtCreation]
    ensures outcome.Built? && completedSteps.None? ==>
      r == [Updated(WalletUpdate(false, CreatePSBT, outcome.addresses, {}, {})), OpenTxLike, FinishedPsbtCreation]
  {
    if !outcome.Built? then [FinishedPsbtCreation]
    else
      var steps := if completedSteps.Some? then completedSteps.value else 2;
      (if steps >= 1 then [Updated(WalletUpdate(false, CreatePSBT, outcome.addresses, {}, {}))] else [])
      + (if steps >= 2 then [OpenTxLike] else [])
      + [FinishedPsbtCreation]
  }

  /** The union of the txids involving each address. */
  function InvolvedTxids(addresses: seq<string>, involvedTxids: map<string, set<string>>): (r: set<string>)
    requires forall a :: a in addresses ==> a in involvedTxids
    ensures forall t :: t in r <==> exists a :: a in addresses && t in involvedTxids[a]
  {
    if addresses == [] then {}
    else
      var n := |addresses| - 1;
      assert forall a :: a in addresses <==> a in addresses[..n] || a == addresses[n] by {
        assert addresses == addresses[..n] + [addresses[n]];
      }
      InvolvedTxids(addresses[..n], involvedTxids) + involvedTxids[addresses[n]]
  }
}
