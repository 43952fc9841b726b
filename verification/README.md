# Bitcoin Safe — a Dafny model of its configuration, release tooling and wallet GUI logic

Bitcoin Safe is a desktop Bitcoin wallet (Python, Qt). This project models, in Dafny, the
parts of it whose behaviour is decided by the application's own logic rather than by Qt
or the Bitcoin library underneath:

- **User configuration** (`bitcoin_safe/config.py`): the defaults of `UserConfig`, the
  per-network list of recently opened wallets (a bounded `deque` that moves a re-opened
  file to the end), the legacy `get`, `from_dump` (restoring the deques and overlaying
  the dumped values on the defaults) and the version-gated `from_dump_migration`.
- **Language chooser** (`bitcoin_safe/gui/qt/language_chooser.py`): scanning the locale
  directory for `*.qm` files, the language dialog, installing and removing Qt
  translators, and switching language (including saving the code in the configuration).
- **Release builder** (`tools/build.py`): the application name, the pinned requirement
  list written into `pyproject.toml`, packaging-target dispatch, signature verification,
  the default targets per operating system and the cleaning of `--targets` values.
- **Transaction tab** (`bitcoin_safe/gui/qt/ui_tx.py`): signing-step navigation, reload
  gating, grouping PSBT inputs by wallet, the signature importers offered per signing
  slot, fee calculation, the "send max" amounts, hand-added outpoints and the
  category-linking warning bar.
- **Wallet tab** (`bitcoin_safe/gui/qt/qt_wallet.py`): the sync state machine and its
  two timers, the displayed balance, refresh events, backups, lock files, the
  PSBT-creation callbacks and dragging addresses onto a category.
- **Search** (`bitcoin_safe/gui/qt/search_tree_view.py`): the result tree, the
  highlighting of matches, and the click handling that walks a result up to its root.
- **Block buttons** (`bitcoin_safe/gui/qt/block_buttons.py`): the labels of projected
  and confirmed block buttons, the confirmations text, the time estimate (with Python's
  half-to-even `round`), and which labels are shown.
- **Update notification bar** (`bitcoin_safe/gui/qt/update_notification_bar.py`): the
  latest-release check, filtering release assets by platform, moving downloaded files,
  and the bar's visible state.

Each source file is one Dafny module (`config.dfy`, `language_chooser.dfy`, `build.dfy`,
`ui_tx.dfy`, `qt_wallet.dfy`, `search_tree_view.dfy`, `block_buttons.dfy`,
`update_notification_bar.dfy`). Objects whose methods update fields in place
(`UserConfig`, `LanguageChooser`, `QTWallet`, `UITx_Creator`, `ResultItem`, the block
labels and buttons, `UpdateNotificationBar`) are classes. Pure helpers are functions.
Loops of the source are methods with loop invariants, proved against a specification
function. Shared helpers live in `wrappers.dfy` (`Option`, `Result`), `strings.dfy`
(Python's `split`, `join`, `capitalize`, `replace`, `strip`, integer formatting and
string ordering), `collections.dfy` (an insertion-ordered dictionary) and `versions.dfy`
(dotted release numbers compared as `packaging.version` compares them, with zero padding).

The model follows what the code does, including where that may surprise a reader:

- `package_application` refreshes the requirement list before packaging anything. An
  unknown target raises only after the targets before it were packaged.
- `UserConfig()` creates the recent-wallet deques with `maxlen=15`, while `from_dump`
  restores them with `maxlen=5`. Each deque therefore carries its own bound.
- `f"qt_{None}"` yields the name `qt_None`, and the model keeps it.

Operating-system services are parameters of the model:

- the file listing of a directory;
- whether a translator file loads;
- signature validity;
- `platform.system()`;
- the home directory;
- the background thread's result.

## Model

| member | source | states |
|---|---|---|
| Config.NetworkFromName | bitcoin_safe/config.py:124-125 | `bdk.Network._member_map_[k]`: a dumped key names a network exactly when some network has that name, and then it is that network |
| Config.LastN | bitcoin_safe/config.py:124-126 | `deque(v, maxlen=n)` keeps exactly the newest n items of `v` (all of them when there are at most n), in their order |
| Config.RemoveFirstPresent | bitcoin_safe/config.py:90-91 | `deque.remove` of a present item takes out exactly one occurrence |
| Config.RemoveFirstNoDuplicates | bitcoin_safe/config.py:90-91 | removing from a list without repeats leaves no occurrence and no repeats |
| Config.TouchExisting | bitcoin_safe/config.py:87-92 | re-opening a listed wallet moves it to the end; the list keeps its length and its contents |
| Config.TouchNew | bitcoin_safe/config.py:87-92 | opening a new wallet appends it, and once the deque is full the oldest entry is dropped |
| Config.TouchBounded | bitcoin_safe/config.py:87-92 | the list never exceeds its bound and ends with the wallet just opened |
| Config.TouchNoDuplicates | bitcoin_safe/config.py:87-92 | the recent-wallet list never holds a file twice |
| Config.Defaults | bitcoin_safe/config.py:75-85 | a fresh configuration has exactly its eight attributes: the network configs, mainnet or testnet by the default flag, no last wallet files and no opened transactions, the data directory, not maximized, an empty recent list of length 15 for every network, and no language |
| Config.Overlay | bitcoin_safe/config.py:135-139 | `setattr` for each non-`None` dumped value: dumped values win, `None` keeps the default, no other key appears |
| Config.RestoreRecentLists | bitcoin_safe/config.py:123-129 | the dumped recent lists are restored as deques; a dumped value that is not a dictionary raises, and a dictionary restores exactly when every key names a network and every value is a list |
| Config.RestoreWithoutRecentLists | bitcoin_safe/config.py:123-127 | a dump without recent lists restores an empty deque of length 5 for every network |
| Config.RestoredRecentLists | bitcoin_safe/config.py:124-129 | each restored network's deque holds the last five dumped files, in order |
| Config.FromDumpMigration | bitcoin_safe/config.py:143-172 | a missing or unparsable VERSION raises; up to 0.1.0 the dumped network config decides the network (a dump without one raises); each key whose version gate applies is gone; VERSION is removed; every other key keeps its value |
| Config.MigrateFrom | bitcoin_safe/config.py:145-167 | for a parsed VERSION: up to 0.1.0 the migration fails exactly when the dump holds no usable network config; every key a passed gate marks obsolete is gone, the network is taken from the network config, no unknown key appears, and every key no gate touches keeps its value |
| Config.DropObsoleteKeys | bitcoin_safe/config.py:151-171 | exactly the keys that the version gates mark obsolete are removed, and all others are kept unchanged |
| Config.MigrationGatesNested | bitcoin_safe/config.py:145-167 | the gates are nested: a dump at or below 0.1.0 passes every later gate, so all legacy keys are dropped |
| Config.UserConfig.constructor | bitcoin_safe/config.py:75-85 | a new configuration holds exactly the defaults |
| Config.UserConfig.ClassAttributes | bitcoin_safe/config.py:59-107 | the class-level VERSION is "0.1.6" and the application name "bitcoin_safe"; every method of the class is a class attribute |
| Config.UserConfig.Get | bitcoin_safe/config.py:94-107 | `get` returns the property `wallet_dir` or `network_config` when it evaluates (else the default), else the instance attribute, else the class attribute or method, else the default |
| Config.UserConfig.Property | bitcoin_safe/config.py:94-100 | `wallet_dir` is the configuration directory joined with the current network's name; `network_config` exists exactly when the network's entry does; a missing network attribute gives nothing |
| Config.PathJoin | bitcoin_safe/config.py:100 | `os.path.join` keeps the directory as its prefix and ends with the joined name |
| Config.UserConfig.AddRecentlyOpenWallet | bitcoin_safe/config.py:87-92 | the current network's deque is touched with the file and nothing else changes; a network missing from a restored dump raises |
| Config.UserConfig.SetAttributes | bitcoin_safe/config.py:135-139 | the attributes become the overlay of the dumped values |
| Config.FromDump | bitcoin_safe/config.py:121-140 | a fresh configuration whose attributes are the defaults overlaid with the restored dump; a malformed dump raises |
| LanguageChooser.LocaleCode | bitcoin_safe/gui/qt/language_chooser.py:146-148 | a `.qm` file without `_` makes the scan raise; otherwise the code is the text after the first `_` |
| LanguageChooser.LocaleCodeOfFileName | bitcoin_safe/gui/qt/language_chooser.py:146-148 | `prefix_code.qm` yields exactly `code` |
| LanguageChooser.ScanFrom | bitcoin_safe/gui/qt/language_chooser.py:140-158 | the scan yields a well-formed insertion-ordered dictionary |
| LanguageChooser.ScanFromSpec | bitcoin_safe/gui/qt/language_chooser.py:140-158 | the scan fails exactly on a malformed `.qm` name; otherwise it lists exactly the earlier entries and the codes of the `.qm` files, each with its display name, the new codes following the earlier ones in the order first listed |
| LanguageChooser.ChooseLanguage | bitcoin_safe/gui/qt/language_chooser.py:87-91 | a rejected dialog chooses nothing; an accepted one chooses the selected code, which is always one offered |
| LanguageChooser.LanguageChooser.constructor | bitcoin_safe/gui/qt/language_chooser.py:95-106 | starts with English as the only language, no translators, and the given signals |
| LanguageChooser.LanguageChooser.DefaultLang | bitcoin_safe/gui/qt/language_chooser.py:111-112 | the default language is "en_US" and is always available |
| LanguageChooser.LanguageChooser.ScanForLanguages | bitcoin_safe/gui/qt/language_chooser.py:140-158 | a missing directory gives no languages; otherwise the loop computes the scan of its listing |
| LanguageChooser.LanguageChooser.GetLanguages | bitcoin_safe/gui/qt/language_chooser.py:122-125 | the available languages are updated with the scan, keeping English first |
| LanguageChooser.LanguageChooser.DialogChooseLanguage | bitcoin_safe/gui/qt/language_chooser.py:114-120 | returns an available code: the chosen one, or English when the dialog is rejected |
| LanguageChooser.LanguageChooser.InstallTranslator | bitcoin_safe/gui/qt/language_chooser.py:160-165 | a translator is kept exactly when the application exists and the file loads |
| LanguageChooser.LanguageChooser.SetLanguage | bitcoin_safe/gui/qt/language_chooser.py:167-189 | old translators are removed in reverse order, the Qt and app translators are installed, and an empty code falls back to English |
| LanguageChooser.LanguageChooser.RemoveTranslators | bitcoin_safe/gui/qt/language_chooser.py:170-171 | every installed translator is removed, most recent first, and nothing else changes |
| LanguageChooser.LanguageChooser.AddSignalLanguageSwitch | bitcoin_safe/gui/qt/language_chooser.py:197-198 | the signal is appended to the switch signals and nothing else changes |
| LanguageChooser.LanguageChooser.SwitchLanguage | bitcoin_safe/gui/qt/language_chooser.py:191-195 | sets the language, stores the code in the configuration and emits every switch signal |
| LanguageChooser.NewTranslators | bitcoin_safe/gui/qt/language_chooser.py:174-188 | at most the `qt_` and `app_` translators of the code, only when they load and the application exists |
| LanguageChooser.DefaultSurvivesUpdate | bitcoin_safe/gui/qt/language_chooser.py:111-112 | updating the language list with a scan keeps the default language in first place |
| Build.BuilderVersion | tools/build.py:58 | the version is the package version, or "unknown-version" when that is empty; never empty |
| Build.AppNameParts | tools/build.py:70-74 | the application name splits on `-` back into the capitalised `_`-parts of the module name, one per part |
| Build.PartOfSplitAvoids | tools/build.py:72 | a part of a split holds no character absent from the split text |
| Build.AppNameOfBitcoinSafe | tools/build.py:70-74 | `bitcoin_safe` is formatted as `Bitcoin-Safe` |
| Build.NewBuilder | tools/build.py:56-62 | the builder's application name is the formatted module name, `_`, and the version |
| Build.SetInSpec | tools/build.py:110-117 | a chain of `setdefault` writes the value at its path and leaves every path that branches off unchanged |
| Build.SetPathSpec | tools/build.py:110-117 | addressed by the full path of the entry: the write succeeds exactly when every table on the way is absent or a table; then the value reads back and every path that branches off is unchanged |
| Build.SetInOk | tools/build.py:113-119 | a `setdefault` chain raises exactly when a node on its way exists and is not a table; missing tables are created |
| Build.WritableAfterWrite | tools/build.py:113-119 | writing one entry does not change whether the way to an entry that branches off it can be walked |
| Build.ManifestWritableIff | tools/build.py:113-119 | the ways to the three entries pass exactly through `tool`, `tool.briefcase`, `tool.briefcase.app`, `tool.briefcase.app.bitcoin-safe` and `tool.poetry` |
| Build.ManifestWithoutToolWritable | tools/build.py:113-119 | a manifest without `tool`, an empty one included, can always be updated |
| Build.RequirementList | tools/build.py:96-107 | one requirement per lock package in lock order (its source URL, or `name==version`), then the additional ones |
| Build.BriefcaseRequires | tools/build.py:96-107 | the loop builds exactly that requirement list |
| Build.WriteEntries | tools/build.py:110-117 | three writes at diverging paths succeed exactly when the ways to all three can be walked in the original manifest; then each value reads back, and every other entry is unchanged |
| Build.UpdateBriefcaseRequires | tools/build.py:76-121 | the update succeeds exactly when none of `tool`, `tool.briefcase`, `tool.briefcase.app`, `tool.briefcase.app.bitcoin-safe` and `tool.poetry` exists as something other than a table; then the manifest holds the requirement list and the builder version for briefcase and poetry, and nothing else changes |
| Build.PackagingSteps | tools/build.py:245-246 | targets are packaged in order up to the first one `f_map` lacks |
| Build.PackageTargets | tools/build.py:245-246 | the loop packages exactly those targets and fails exactly when some target is unknown |
| Build.PackageApplication | tools/build.py:229-258 | the requirement refresh succeeds under the same condition as UpdateBriefcaseRequires, and a failed one packages nothing; after it the targets are packaged in order, with success exactly when every target is known |
| Build.Verify | tools/build.py:270-282 | an empty file list raises; otherwise true exactly when every signature is valid, stopping at the first invalid one |
| Build.Sign | tools/build.py:260-268 | signing succeeds exactly when there are signed files and all of them verify |
| Build.DefaultTargets | tools/build.py:390-401 | Windows, Linux and macOS each get their one target, and any other system gets none |
| Build.StripCommas | tools/build.py:431 | each target keeps its place, with `,` replaced by nothing |
| Build.CleanTargetsSpec | tools/build.py:421-431 | no `--targets` gives no targets; an empty one gives the defaults; otherwise one target per value with every comma removed |
| UiTx.StepNavigationSymmetric | bitcoin_safe/gui/qt/ui_tx.py:446-458 | forward from step i is allowed exactly when backward from step i+1 is; never back from the first or on past the last step; nothing without steps |
| UiTx.ReloadGate | bitcoin_safe/gui/qt/ui_tx.py:491-499 | the viewer reloads exactly when the filter asks for everything or names an outpoint |
| UiTx.GroupKeyIgnoresKeyOrder | bitcoin_safe/gui/qt/ui_tx.py:693-700 | inputs with the same keys in any order fall in the same group |
| UiTx.InputsWithKeyEmpty | bitcoin_safe/gui/qt/ui_tx.py:689-706 | a key no input has gets no inputs |
| UiTx.GroupingStep | bitcoin_safe/gui/qt/ui_tx.py:702-703 | one more input joins exactly the group of its own key |
| UiTx.InputInItsGroup | bitcoin_safe/gui/qt/ui_tx.py:689-706 | every input lands in the group of its key |
| UiTx.GroupMembersHaveKey | bitcoin_safe/gui/qt/ui_tx.py:689-706 | every member of a group is an input whose key is that group |
| UiTx.GetWalletInputs | bitcoin_safe/gui/qt/ui_tx.py:689-706 | the groups are exactly the keys that occur, in the order each key first occurs, each with its inputs in PSBT order |
| Collections.InsertKeysSpec | bitcoin_safe/gui/qt/ui_tx.py:703-704 | inserting keys into a `dict` keeps the existing keys in front and adds each new key once, so the keys stay distinct |
| UiTx.SeedWallets | bitcoin_safe/gui/qt/ui_tx.py:713-728 | exactly the open wallets holding a seed for one of the fingerprints, each once |
| UiTx.WalletsWithSeed | bitcoin_safe/gui/qt/ui_tx.py:721-728 | the loop computes exactly those wallets, in order |
| UiTx.ParseSlotName | bitcoin_safe/gui/qt/ui_tx.py:744 | the slot name `group.i` reads back as its group and index |
| UiTx.SlotNameInjective | bitcoin_safe/gui/qt/ui_tx.py:744 | different slots never share a name |
| UiTx.BuildSlot | bitcoin_safe/gui/qt/ui_tx.py:745-790 | one slot's importers: a file importer for a signature already there, otherwise the wallets with a seed followed by the four manual importers |
| UiTx.FillSlot | bitcoin_safe/gui/qt/ui_tx.py:744 | filling a slot keeps every slot filled so far |
| UiTx.AddGroupSlots | bitcoin_safe/gui/qt/ui_tx.py:742-790 | the inner loop fills exactly the group's m slots |
| UiTx.GroupComplete | bitcoin_safe/gui/qt/ui_tx.py:742-790 | after its m slots a group is done and nothing else was added |
| UiTx.EmptyGroupHasNoSlots | bitcoin_safe/gui/qt/ui_tx.py:736-737 | a group without inputs is skipped |
| UiTx.KeysBeforeStep | bitcoin_safe/gui/qt/ui_tx.py:735 | the groups done grow by one key per outer iteration |
| UiTx.AllGroupsDone | bitcoin_safe/gui/qt/ui_tx.py:735-790 | after the loop there are exactly the slots of all groups, each with its importers |
| UiTx.CombinedSignatureImporters | bitcoin_safe/gui/qt/ui_tx.py:708-796 | one entry per slot `group.i` for i below the group's m, holding exactly that slot's importers, and no other entry |
| UiTx.MergedTxosKnows | bitcoin_safe/gui/qt/ui_tx.py:914-916 | the merged txos know an outpoint exactly when some wallet does |
| UiTx.LaterWalletWins | bitcoin_safe/gui/qt/ui_tx.py:914-916 | `dict.update` in wallet order: the last wallet knowing an outpoint decides its value |
| UiTx.CalcFeeInfo | bitcoin_safe/gui/qt/ui_tx.py:913-930 | no fee info exactly when an input is unknown or has no value; otherwise fee = inputs minus outputs, the size, and estimated exactly when the size is not final |
| UiTx.MaxCount | bitcoin_safe/gui/qt/ui_tx.py:1569-1573 | the number of "send max" recipients is zero exactly when none is checked |
| UiTx.ReappliedAmount | bitcoin_safe/gui/qt/ui_tx.py:1564-1578 | after reapplying, the counted amount is the other recipients' amounts plus one share per "send max" recipient |
| UiTx.MaxAmountsSpendSelection | bitcoin_safe/gui/qt/ui_tx.py:1564-1598 | after reapplying, the selection minus the fee minus all amounts is below the number of "send max" recipients and never negative, so the floor division loses less than one satoshi per recipient |
| UiTx.FeeEstimateCounts | bitcoin_safe/gui/qt/ui_tx.py:1499-1518 | one output per recipient plus the change; at least one input, otherwise the number of selected coins |
| UiTx.NotInMembers | bitcoin_safe/gui/qt/ui_tx.py:1471-1475 | the outpoints kept are exactly those not already known |
| UiTx.NotInCovered | bitcoin_safe/gui/qt/ui_tx.py:1471-1475 | nothing is kept when every outpoint is known |
| UiTx.NotInSnoc | bitcoin_safe/gui/qt/ui_tx.py:1473-1475 | one more outpoint is kept exactly when it is not known |
| UiTx.AddOutpointsIdempotent | bitcoin_safe/gui/qt/ui_tx.py:1471-1475 | adding the same outpoints a second time adds nothing |
| UiTx.CountedAmountIgnoresMaximum | bitcoin_safe/gui/qt/ui_tx.py:1566-1567 | setting the spin-box maximum does not change the counted amounts |
| UiTx.MaxCountIgnoresMaximum | bitcoin_safe/gui/qt/ui_tx.py:1566-1567 | nor the number of "send max" recipients |
| UiTx.TxCreator.constructor | bitcoin_safe/gui/qt/ui_tx.py:1375-1376 | a new tab has no hand-added outpoints |
| UiTx.TxCreator.AddOutpoints | bitcoin_safe/gui/qt/ui_tx.py:1471-1475 | appends the given outpoints not known before the call, in order; afterwards every one is among the tab's outpoints |
| UiTx.TxCreator.ReapplyMaxAmounts | bitcoin_safe/gui/qt/ui_tx.py:1564-1578 | every maximum becomes the selected value; each "send max" amount becomes the change after the fee split evenly and floored; nothing else changes |
| UiTx.LinkingWarningBar.constructor | bitcoin_safe/gui/qt/ui_tx.py:127-143 | a new bar is hidden with no categories |
| UiTx.LinkingWarningBar.SetCategoryDict | bitcoin_safe/gui/qt/ui_tx.py:145-151 | the bar is shown exactly when more than one category is involved |
| QtWallet.RefreshEvents | bitcoin_safe/gui/qt/qt_wallet.py:638-659 | a full refresh is emitted exactly when forced or changed (marked as a transaction change when changed); otherwise a chain-height update when the height advanced; nothing else |
| QtWallet.Suffix | bitcoin_safe/gui/qt/qt_wallet.py:467-469 | a path suffix starts with `.`, ends the name and is shorter than it |
| QtWallet.Stem | bitcoin_safe/gui/qt/qt_wallet.py:467-469 | the stem followed by the suffix gives back the name |
| QtWallet.LockfilePath | bitcoin_safe/gui/qt/qt_wallet.py:466-469 | the lock file lies beside the wallet file and its name is the wallet file's stem (the name without its suffix) followed by `.lock`; a path without a name raises |
| QtWallet.StemNonEmpty | bitcoin_safe/gui/qt/qt_wallet.py:467-469 | a non-empty name keeps a non-empty stem |
| QtWallet.LockSuffix | bitcoin_safe/gui/qt/qt_wallet.py:467-469 | the suffix of `stem.lock` is `.lock` |
| QtWallet.LockfilePathIdempotent | bitcoin_safe/gui/qt/qt_wallet.py:466-469 | the lock file of a lock file is itself |
| QtWallet.BackupPathInjective | bitcoin_safe/gui/qt/qt_wallet.py:421-448 | different backup numbers give different file names |
| QtWallet.QtWallet.constructor | bitcoin_safe/gui/qt/qt_wallet.py:172-253 | starts with unknown sync status, height 0, both timers running and the cached display balance taken from the data dump |
| QtWallet.QtWallet.GetDisplayBalance | bitcoin_safe/gui/qt/qt_wallet.py:269-273 | synced shows the wallet balance; otherwise the cached one, or an empty balance |
| QtWallet.QtWallet.UpdateDisplayBalance | bitcoin_safe/gui/qt/qt_wallet.py:275-277 | the cache takes the wallet balance only when synced |
| QtWallet.QtWallet.SetSyncStatus | bitcoin_safe/gui/qt/qt_wallet.py:959-963 | sets the status, signals the change once and updates the cached balance |
| QtWallet.QtWallet.RefreshCachesAndUiLists | bitcoin_safe/gui/qt/qt_wallet.py:566-670 | emits exactly the delta's events (including the forced refresh that removed transactions trigger) and changes nothing else |
| QtWallet.DeltaEvents | bitcoin_safe/gui/qt/qt_wallet.py:566-659 | the refresh events, then, when the UI is refreshed and transactions were removed, a second full refresh, marked as a transaction change exactly when the recheck found changes; at most two events |
| QtWallet.QtWallet.Sync | bitcoin_safe/gui/qt/qt_wallet.py:965-1029 | a sync already running is not started again; otherwise the caches refresh without forcing the UI, the status becomes syncing and the worker starts, in that order |
| QtWallet.QtWallet.OnSyncSuccess | bitcoin_safe/gui/qt/qt_wallet.py:992-1007 | becomes synced and shows the new balance, refreshes with "chain height advanced" exactly when the height differs from the last sync's, records that height, then signals the end of the sync |
| QtWallet.QtWallet.OnSyncError | bitcoin_safe/gui/qt/qt_wallet.py:984-990 | becomes the error status and nothing else changes |
| QtWallet.QtWallet.RetryTimerTick | bitcoin_safe/gui/qt/qt_wallet.py:311-316 | the retry timer syncs only when neither syncing nor synced |
| QtWallet.QtWallet.RegularTimerTick | bitcoin_safe/gui/qt/qt_wallet.py:296-301 | the regular timer syncs only when synced |
| QtWallet.QtWallet.StartSyncRetryTimer | bitcoin_safe/gui/qt/qt_wallet.py:306-319 | the retry timer runs afterwards (an active one is left alone); the other timer and every other field are unchanged |
| QtWallet.QtWallet.StartSyncRegularlyTimer | bitcoin_safe/gui/qt/qt_wallet.py:291-304 | the regular timer runs afterwards (an active one is left alone); the other timer and every other field are unchanged |
| QtWallet.QtWallet.StopSyncTimer | bitcoin_safe/gui/qt/qt_wallet.py:279-281 | both timers are stopped and nothing else changes |
| QtWallet.QtWallet.SaveBackup | bitcoin_safe/gui/qt/qt_wallet.py:421-448 | writes one backup, under the first unused number below the limit, or overwrites the last one; nothing else changes |
| QtWallet.QtWallet.GetWalletLockfile | bitcoin_safe/gui/qt/qt_wallet.py:470-477 | returns nothing when the lock file already exists; otherwise creates it and returns its path; a path without a name raises; nothing else changes |
| QtWallet.QtWallet.PsbtOnDone | bitcoin_safe/gui/qt/qt_wallet.py:713-747 | emits exactly the completion events of the outcome and changes nothing else |
| QtWallet.QtWallet.PsbtOnError | bitcoin_safe/gui/qt/qt_wallet.py:752-753 | emits only "creation finished" and changes nothing else |
| QtWallet.QtWallet.SetCategory | bitcoin_safe/gui/qt/qt_wallet.py:804-820 | every dragged address ends in the last dragged tag and all other addresses keep theirs (no tags change nothing); one update names the addresses, the tags and all their transactions; timers, balances and files are unchanged |
| QtWallet.QtWallet.TagAddress | bitcoin_safe/gui/qt/qt_wallet.py:806-807 | after all tags are set on one address it holds the last of them (no tags leave it unchanged); every other field, including the timers, balances, events and files, is unchanged |
| QtWallet.AssignAllSpec | bitcoin_safe/gui/qt/qt_wallet.py:805-807 | giving one category to a list of addresses: exactly those addresses are added, each holds the category, every other address keeps its own |
| QtWallet.PsbtDoneEvents | bitcoin_safe/gui/qt/qt_wallet.py:713-747 | "creation finished" comes exactly once and last on every path; without a built PSBT nothing else is emitted; a built one emits the update and opens the transaction first |
| QtWallet.InvolvedTxids | bitcoin_safe/gui/qt/qt_wallet.py:809-811 | exactly the transactions that involve some dragged address |
| QtWallet.CollectInvolvedTxids | bitcoin_safe/gui/qt/qt_wallet.py:809-811 | the loop gathers exactly the transactions that involve some dragged address |
| QtWallet.QtWallet.TagAll | bitcoin_safe/gui/qt/qt_wallet.py:805-807 | every dragged address in turn takes each tag, so the categories become the assignment of the last tag to all of them (none without tags); nothing else changes |
| SearchTreeView.ResultItem.constructor | bitcoin_safe/gui/qt/search_tree_view.py:109-115 | a new item with the text and parent, appended to the parent's children |
| SearchTreeView.ResultItem.SetParent | bitcoin_safe/gui/qt/search_tree_view.py:117-121 | the parent is set and gains the item as a child unless it already has it |
| SearchTreeView.SetParentTwice | bitcoin_safe/gui/qt/search_tree_view.py:117-121 | setting the same parent again does not add the child twice |
| SearchTreeView.DemoDoSearch | bitcoin_safe/gui/qt/search_tree_view.py:124-144 | an empty search gives an empty root; otherwise one wallet with three groups |
| SearchTreeView.FormatResultTextWraps | bitcoin_safe/gui/qt/search_tree_view.py:404-407 | highlighting adds the bold markup once per match and leaves a text without matches unchanged |
| SearchTreeView.TxoOrder | bitcoin_safe/gui/qt/search_tree_view.py:474-496 | only the utxo and spent groups that have hits appear, each once |
| SearchTreeView.GroupItems | bitcoin_safe/gui/qt/search_tree_view.py:411-496 | one result per group, in order |
| SearchTreeView.WalletHasNoEmptyGroup | bitcoin_safe/gui/qt/search_tree_view.py:419-496 | a group appears only with at least one hit |
| SearchTreeView.SearchHasNoEmptyBranch | bitcoin_safe/gui/qt/search_tree_view.py:410-496 | the results contain no wallet without groups and no group without hits |
| SearchTreeView.KeyedHitsSound | bitcoin_safe/gui/qt/search_tree_view.py:419-466 | every hit is a leaf for an entry whose key or label contains the search text |
| SearchTreeView.KeyedHitsComplete | bitcoin_safe/gui/qt/search_tree_view.py:420-426 | every entry whose key contains the search text is a hit with the highlighted key, and every entry whose label matches is a hit with the highlighted label |
| SearchTreeView.KeyedSearch | bitcoin_safe/gui/qt/search_tree_view.py:419-440 | the loop collects exactly the hits; the group is attached exactly when it has some |
| SearchTreeView.TxoSearch | bitcoin_safe/gui/qt/search_tree_view.py:474-496 | the loop collects exactly the utxo and spent hits and their group order |
| SearchTreeView.WalletSearch | bitcoin_safe/gui/qt/search_tree_view.py:411-496 | one wallet's results, as specified |
| SearchTreeView.DoSearch | bitcoin_safe/gui/qt/search_tree_view.py:403-498 | the result tree of all wallets, as specified |
| SearchTreeView.SearchResultOnClick | bitcoin_safe/gui/qt/search_tree_view.py:376-379 | the click is handled from the root down to the clicked item: every ancestor, in reverse order |
| BlockButtons.ConfirmationsPlural | bitcoin_safe/gui/qt/block_buttons.py:96-100 | "Confirmations" exactly when more than one, otherwise "Confirmation" |
| BlockButtons.RoundHalfEvenSpec | bitcoin_safe/gui/qt/block_buttons.py:122 | Python's `round` is the nearest integer, ties to even, and is unique |
| BlockButtons.EstimateForSpec | bitcoin_safe/gui/qt/block_buttons.py:117-124 | below 6 blocks 10 minutes per block; from 6 on the hours, rounded half to even |
| BlockButtons.MempoolButtonsShowNextBlock | bitcoin_safe/gui/qt/block_buttons.py:284-294 | the first button always shows and reads "Next Block"; the others show exactly for projected blocks |
| BlockButtons.BlockLabel.constructor | bitcoin_safe/gui/qt/block_buttons.py:63-70 | a label is hidden exactly when its text is empty |
| BlockButtons.BlockLabel.SetText | bitcoin_safe/gui/qt/block_buttons.py:72-74 | setting text keeps "hidden exactly when empty" |
| BlockButtons.BlockButton.constructor | bitcoin_safe/gui/qt/block_buttons.py:139-158 | a button has its eight labels, all empty |
| BlockButtons.VerticalButtonGroup.constructor | bitcoin_safe/gui/qt/block_buttons.py:209-221 | the group has the requested number of fresh, visible buttons with empty labels |
| BlockButtons.VerticalButtonGroup.Click | bitcoin_safe/gui/qt/block_buttons.py:213-219 | clicking button i emits index i |
| BlockButtons.MempoolButtons.constructor | bitcoin_safe/gui/qt/block_buttons.py:272-281 | created refreshed for the current mempool |
| BlockButtons.MempoolButtons.Refresh | bitcoin_safe/gui/qt/block_buttons.py:283-300 | each button shows its projected block's title and estimate, visible as specified |
| BlockButtons.ShowProjected | bitcoin_safe/gui/qt/block_buttons.py:284-294 | one button's visibility, title and time estimate are set; others keep their visibility |
| BlockButtons.ShowProjectedAll | bitcoin_safe/gui/qt/block_buttons.py:350-362 | every button shows the same projected block |
| BlockButtons.MempoolProjectedBlock.constructor | bitcoin_safe/gui/qt/block_buttons.py:310-330 | one visible button, the given fee rate and no URL; the button shows the projected block of that fee rate, as a refresh would |
| BlockButtons.MempoolProjectedBlock.Refresh | bitcoin_safe/gui/qt/block_buttons.py:342-362 | a given fee rate replaces the stored one and the button shows its projected block |
| BlockButtons.MempoolProjectedBlock.OnButtonClick | bitcoin_safe/gui/qt/block_buttons.py:364-372 | opens the block's URL, else the explorer URL, else nothing |
| BlockButtons.ConfirmedBlock.constructor | bitcoin_safe/gui/qt/block_buttons.py:378-398 | one button, the given URL, confirmation time and fee rate |
| BlockButtons.ConfirmedBlock.Refresh | bitcoin_safe/gui/qt/block_buttons.py:403-430 | given values replace the stored ones; without a confirmation time nothing is shown, otherwise the confirmed block; its frame admits only the title, confirmations, height, explorer and exact-fee labels, so the approximate median fee, fee range and time estimation keep their text |
| BlockButtons.ConfirmedBlock.OnButtonClick | bitcoin_safe/gui/qt/block_buttons.py:432-435 | opens the URL if any and emits the fee rate |
| BlockButtons.ConfirmedShowsOneOfCountAndHeight | bitcoin_safe/gui/qt/block_buttons.py:414-430 | a confirmed block shows either its confirmations (when the chain height is known) or its height, never both; the exact fee only when non-zero |
| BlockButtons.ShowConfirmedAll | bitcoin_safe/gui/qt/block_buttons.py:414-430 | every button shows the confirmed block |
| BlockButtons.ShowConfirmed | bitcoin_safe/gui/qt/block_buttons.py:414-430 | one button shows the confirmed block |
| UpdateNotificationBar.AssetTag | bitcoin_safe/gui/qt/update_notification_bar.py:93-98 | no assets give no tag; otherwise the last asset's tag |
| UpdateNotificationBar.IsNewVersionAvailable | bitcoin_safe/gui/qt/update_notification_bar.py:100-104 | no (or an empty) tag means no update; an unparsable tag raises |
| UpdateNotificationBar.NewVersionIsStrictlyNewer | bitcoin_safe/gui/qt/update_notification_bar.py:100-104 | an update is reported only for a release strictly newer than the running one |
| UpdateNotificationBar.NewerVersionIsReported | bitcoin_safe/gui/qt/update_notification_bar.py:100-104 | for a parsable latest tag, an update is reported exactly when that release is strictly newer than the running one |
| UpdateNotificationBar.LessEqReflexive | bitcoin_safe/gui/qt/update_notification_bar.py:104 | the running version is never newer than itself |
| UpdateNotificationBar.Filtered | bitcoin_safe/gui/qt/update_notification_bar.py:178-202 | an asset is kept exactly when it is ours and, on a known system, ends with one of the system's endings |
| UpdateNotificationBar.SubsequenceOfLonger | bitcoin_safe/gui/qt/update_notification_bar.py:178-202 | appending to the list keeps a subsequence a subsequence |
| UpdateNotificationBar.SubsequenceDropLast | bitcoin_safe/gui/qt/update_notification_bar.py:178-202 | dropping the last kept item keeps a subsequence |
| UpdateNotificationBar.FilteredIsSubsequence | bitcoin_safe/gui/qt/update_notification_bar.py:178-202 | filtering keeps the order of the fetched assets |
| UpdateNotificationBar.GetFilteredAssets | bitcoin_safe/gui/qt/update_notification_bar.py:178-202 | the loop keeps exactly the filtered assets |
| UpdateNotificationBar.FileSystem.constructor | bitcoin_safe/gui/qt/update_notification_bar.py:164-173 | the file system holds the given files and directories |
| UpdateNotificationBar.Name | bitcoin_safe/gui/qt/update_notification_bar.py:167 | a path's name holds no separator |
| UpdateNotificationBar.NameOfJoin | bitcoin_safe/gui/qt/update_notification_bar.py:167 | joining a name to a directory gives a path with that name |
| UpdateNotificationBar.MoveTargetKeepsName | bitcoin_safe/gui/qt/update_notification_bar.py:164-172 | moving into a directory keeps the file's name |
| UpdateNotificationBar.MoveAndOverwrite | bitcoin_safe/gui/qt/update_notification_bar.py:164-173 | the file moves to its target, replacing what was there, and the target is returned; it fails exactly when the source is missing, is the target, or the target is a directory |
| UpdateNotificationBar.UpdateBar.constructor | bitcoin_safe/gui/qt/update_notification_bar.py:62-91 | starts hidden with no assets, "No update found", the "Check for Update" button shown and no download area |
| UpdateNotificationBar.UpdateBar.Refresh | bitcoin_safe/gui/qt/update_notification_bar.py:106-134 | the button reads "Check for Update"; the download area shows exactly when there are assets; a newer release is named, hides the button, shows the bar and gets one downloader per asset in order; otherwise the text says the version is current or no update was found and the button shows; an unparsable tag raises with the text and button unchanged |
| UpdateNotificationBar.UpdateBar.OnCheckSuccess | bitcoin_safe/gui/qt/update_notification_bar.py:211-215 | the assets become the filtered fetched ones and the bar is then exactly as `Refresh` leaves it |
| UpdateNotificationBar.UpdateBar.CheckAndMakeVisible | bitcoin_safe/gui/qt/update_notification_bar.py:222-224 | the bar becomes visible and nothing else changes |
| UpdateNotificationBar.UpdateBar.RefreshAndHide | bitcoin_safe/gui/qt/update_notification_bar.py:140-141 | the bar is as `Refresh` leaves it and then hidden, unless the refresh raised |
| UpdateNotificationBar.UpdateBar.OnDownloadFinished | bitcoin_safe/gui/qt/update_notification_bar.py:136-161 | without a signature, or with a bad one, the bar is refreshed and hidden and no file moves; with a valid one the text becomes the green bold "Signature verified.", and the outcome is verified exactly when the download and then its signature move towards the download folder, and the files are then those the two moves leave; when the download folder is a directory both files sit in it under their own names (see DownloadMoves); a failed move raises |
| UpdateNotificationBar.DownloadMoves | bitcoin_safe/gui/qt/update_notification_bar.py:158-172 | into a download folder that is a directory the download and its signature keep their names, side by side; when the folder is not a directory both moves target its path, so the signature replaces the download and one file is left |
| Strings.HtmlF | bitcoin_safe/gui/qt/update_notification_bar.py:156 | the markup wraps the text, so the result is longer |
| Platform.SystemOf | bitcoin_safe/gui/qt/update_notification_bar.py:181-195 | `platform.system()` is Windows, Linux or Darwin exactly when it returns that name; any other name is kept as it is |

## Left out

- Qt widgets, layouts, styles, icons and HTML rendering are not modelled.
- Strings.HtmlF: states only that the result is longer than the text, because the markup
  of `html_f` is not part of this model and is a placeholder here.
- Translation (`tr`) is the identity; translated strings are their English text.
- Threads: the result of a background task is a parameter of the callback that handles
  it (`OnSyncSuccess`, `OnCheckSuccess`, `PsbtOnDone`).
- Floating point: fee rates are `real`, and their textual form omits Python's exponent
  notation and "-0.0". The mempool fee labels, the fee range and the gradients of
  `MempoolButtons` are not modelled.
- `MempoolData` is not part of this model: the number of projected blocks and the
  projected-block index are parameters.
- `format_block_number` is the plain decimal text, without locale digit grouping.
- Message boxes and notifications, `set_unknown_fee_rate` and `clear_labels` are left out.
- Signing and verifying a file's signature are oracles.
- `Path.home()` is a parameter. `shutil.move` is modelled for files only, not directories.
- Versions are dotted numbers, with an optional leading `v` or `V`, both for release tags
  and for the VERSION of a dump. Other PEP 440 forms are treated as unparsable.
- Case mapping is ASCII only.
- `BaseSaveableClass._from_dump`, `dump`, `exists`, `from_file` and `save` read and write
  files. They are not part of this model.
- The importer labels and `pub_keys_without_signature` are not modelled. A missing
  public-key field is the empty string.
- UiTx.TxCreator.ReapplyMaxAmounts: does not model the spin box clamping an amount to its
  maximum; the amount is what `set_max_amount` was given.
- `filename_clean` is the identity and `os.path.join` joins with `/`.
- The interval of the sync timers, `update_status_visualization` and the notification
  text of `handle_delta_txs` are not modelled.
- `do_search` builds a value tree rather than `ResultItem` objects, so object identity in
  the search tree is not captured. `demo_do_search` and `set_parent` are modelled on objects.
- Build.UpdateBriefcaseRequires: the lock file's `package` list is a parameter; a lock
  file without it is not modelled.
- `populate_language_menu` and `centerOnScreen` are not modelled.
- Config.UserConfig.Property: `network_config` is an opaque value; the entry of
  `network_configs` is not looked up, so the `KeyError` of a network without an entry
  is not modelled.
- Config.UserConfig.SetAttributes: `setattr` of a property name would raise; such names
  are treated like any other dumped key.
- The methods `UserConfig` inherits from `BaseSaveableClass` are not class attributes in
  this model.
- QtWallet.QtWallet.RefreshCachesAndUiLists: the refresh that removed transactions trigger
  is assumed to find no further removed transactions, and its events follow the first
  refresh's, as they do when the refresh runs in a thread; without threading Python emits
  them in the opposite order.
- BlockButtons.ConfirmedBlock.OnButtonClick: emits `None` when no fee rate is stored, which
  a `pyqtSignal(float)` would reject.
- UpdateNotificationBar.UpdateBar.OnDownloadFinished: a refresh that raises ends the
  handler in Python; the outcome is still recorded as the missing or bad signature.
- The test file `tests/gui/qt/test_gui_setup_wallet_custom.py` drives the GUI through
  Qt and is not modelled.
