/**
 * The transaction viewer and the transaction creator: when the signing-step buttons
 * are enabled, how the inputs of a PSBT are grouped so that each group belongs to one
 * wallet, which signature importers each required signature is offered, the fee of
 * a transaction, the "send max" amounts, and the outpoints added by hand.
 */
module UiTx {
  import opened Wrappers
  import Strings
  import opened Collections

  // ----- signing-step navigation -----

  /** The signing-steps widget: its number of steps and the steps that may be left forwards. */
  datatype SigningSteps = SigningSteps(count: nat, subIndices: seq<int>)

  /** The "next" button: never on the last step, otherwise only from a step listed in `subIndices`. */
  function StepAllowsForward(steps: Option<SigningSteps>, index: int): bool {
    match steps
    case None => false
    case Some(s) => if index == s.count - 1 then false else index in s.subIndices
  }

  /** The "previous" button: never on the first step, otherwise only back to a listed step. */
  function StepAllowsBackward(steps: Option<SigningSteps>, index: int): bool {
    match steps
    case None => false
    case Some(s) => if index == 0 then false else index - 1 in s.subIndices
  }

  /**
   * The two buttons agree: one may step forwards from `i` exactly when one may step
   * back from `i + 1`, except on the last step, which never allows "next".
   */
  lemma StepNavigationSymmetric(steps: Option<SigningSteps>, i: nat)
    ensures steps.Some? && i != steps.value.count - 1 ==>
      (StepAllowsForward(steps, i) <==> StepAllowsBackward(steps, i + 1))
    ensures !StepAllowsBackward(steps, 0)
    ensures steps.Some? ==> !StepAllowsForward(steps, steps.value.count - 1)
    ensures steps.None? ==> !StepAllowsForward(steps, i) && !StepAllowsBackward(steps, i)
  {
  }

  // ----- reload gate -----

  datatype OutPoint = OutPoint(txid: string, vout: nat)

  /** The update filter a reload is asked with. */
  datatype UpdateFilter = UpdateFilter(refreshAll: bool, outpoints: set<OutPoint>)

  /** The viewer reloads only when the filter asks for everything or names some outpoint. */
  method ReloadGate(filter: UpdateFilter) returns (shouldUpdate: bool)
    ensures shouldUpdate <==> filter.refreshAll || filter.outpoints != {}
    ensures !shouldUpdate ==> !filter.refreshAll && |filter.outpoints| == 0
  {
    shouldUpdate := false;
    if shouldUpdate || filter.refreshAll {
      shouldUpdate := true;
    }
    if shouldUpdate || filter.outpoints != {} {
      shouldUpdate := true;
    }
  }

  // ----- grouping the inputs by wallet -----

  /** A public key of an input; the empty string is a missing (falsy) field. */
  datatype PubKey = PubKey(fingerprint: string, pubkey: string, keyName: string)

  /**
   * An input of a PSBT, as far as grouping and signing look at it: the wallet it was
   * matched to ("" for none), whether its m-of-n is known, its public keys, its
   * estimated number of required signatures and the keys that already signed.
   */
  datatype SimpleInput = SimpleInput(
    walletId: string,
    hasMOfN: bool,
    pubkeys: seq<PubKey>,
    estimatedM: nat,
    signedPubkeys: seq<PubKey>)

  /** `fingerprint or pubkey or label`. */
  function Identifier(p: PubKey): string {
    if p.fingerprint != "" then p.fingerprint else if p.pubkey != "" then p.pubkey else p.keyName
  }

  function Identifiers(ps: seq<PubKey>): seq<string> {
    seq(|ps|, i requires 0 <= i < |ps| => Identifier(ps[i]))
  }

  /**
   * The group of the `i`-th input: its wallet when that wallet and its m-of-n are
   * known, else its sorted key identifiers joined by ", ", else "Input i".
   */
  function GroupKey(inp: SimpleInput, i: nat): string {
    if inp.walletId != "" && inp.hasMOfN then inp.walletId
    else if |inp.pubkeys| > 0 then Strings.Join(Strings.SortStrings(Identifiers(inp.pubkeys)), ", ")
    else "Input " + Strings.NatToString(i)
  }

  /**
   * Because the identifiers are sorted, two inputs without a known wallet whose keys
   * carry the same identifiers, in whatever order, land in the same group.
   */
  lemma GroupKeyIgnoresKeyOrder(a: SimpleInput, b: SimpleInput, i: nat, j: nat)
    requires !(a.walletId != "" && a.hasMOfN) && !(b.walletId != "" && b.hasMOfN)
    requires |a.pubkeys| > 0 && |b.pubkeys| > 0
    requires multiset(Identifiers(a.pubkeys)) == multiset(Identifiers(b.pubkeys))
    ensures GroupKey(a, i) == GroupKey(b, j)
  {
    Strings.SortedUnique(Strings.SortStrings(Identifiers(a.pubkeys)), Strings.SortStrings(Identifiers(b.pubkeys)));
  }

  /** The inputs whose group is `key`, in their order in the PSBT. */
  function InputsWithKey(inputs: seq<SimpleInput>, key: string): seq<SimpleInput> {
    if inputs == [] then []
    else
      var n := |inputs| - 1;
      InputsWithKey(inputs[..n], key) + (if GroupKey(inputs[n], n) == key then [inputs[n]] else [])
  }

  ghost predicate HasKey(inputs: seq<SimpleInput>, key: string) {
    exists i :: 0 <= i < |inputs| && GroupKey(inputs[i], i) == key
  }

  lemma {:induction false} InputsWithKeyEmpty(inputs: seq<SimpleInput>, key: string)
    requires !HasKey(inputs, key)
    ensures InputsWithKey(inputs, key) == []
  {
    if inputs != [] {
      var n := |inputs| - 1;
      forall i | 0 <= i < n
        ensures GroupKey(inputs[..n][i], i) != key
      {
        assert inputs[..n][i] == inputs[i];
      }
      InputsWithKeyEmpty(inputs[..n], key);
    }
  }

  /** One more input: its key gains it, every other key is unchanged. */
  lemma GroupingStep(inputs: seq<SimpleInput>, i: nat, k: string)
    requires i < |inputs|
    ensures HasKey(inputs[..i + 1], k) <==> HasKey(inputs[..i], k) || k == GroupKey(inputs[i], i)
    ensures InputsWithKey(inputs[..i + 1], k)
      == InputsWithKey(inputs[..i], k) + (if GroupKey(inputs[i], i) == k then [inputs[i]] else [])
  {
    assert inputs[..i + 1][..i] == inputs[..i];
    HasKeyStep(inputs[..i + 1], k);
  }

  /** The keys of a non-empty list are those of its prefix and the key of its last input. */
  lemma HasKeyStep(inputs: seq<SimpleInput>, k: string)
    requires inputs != []
    ensures var n := |inputs| - 1;
      HasKey(inputs, k) <==> HasKey(inputs[..n], k) || k == GroupKey(inputs[n], n)
  {
    var n := |inputs| - 1;
    if HasKey(inputs, k) && k != GroupKey(inputs[n], n) {
      var j :| 0 <= j < |inputs| && GroupKey(inputs[j], j) == k;
      assert inputs[..n][j] == inputs[j];
    }
    if HasKey(inputs[..n], k) {
      var j :| 0 <= j < n && GroupKey(inputs[..n][j], j) == k;
      assert inputs[..n][j] == inputs[j];
    }
  }

  /** Every input is in the group of its own key. */
  lemma {:induction false} InputInItsGroup(inputs: seq<SimpleInput>, i: nat)
    requires i < |inputs|
    ensures inputs[i] in InputsWithKey(inputs, GroupKey(inputs[i], i))
    decreases |inputs|
  {
    var n := |inputs| - 1;
    if i < n {
      assert inputs[..n][i] == inputs[i];
      InputInItsGroup(inputs[..n], i);
    }
  }

  /** Every member of a group is an input whose key is that group. */
  lemma {:induction false} GroupMembersHaveKey(inputs: seq<SimpleInput>, key: string, x: SimpleInput)
    requires x in InputsWithKey(inputs, key)
    ensures exists i :: 0 <= i < |inputs| && inputs[i] == x && GroupKey(inputs[i], i) == key
  {
    var n := |inputs| - 1;
    if x in InputsWithKey(inputs[..n], key) {
      GroupMembersHaveKey(inputs[..n], key, x);
      var i :| 0 <= i < n && inputs[..n][i] == x && GroupKey(inputs[..n][i], i) == key;
      assert inputs[i] == inputs[..n][i];
    } else {
      assert inputs[n] == x && GroupKey(inputs[n], n) == key;
    }
  }

  /** One step of `get_wallet_inputs`: appending input `i` keeps the grouping exact. */
  lemma GroupedStep(inputs: seq<SimpleInput>, i: nat, before: map<string, seq<SimpleInput>>,
                    after: map<string, seq<SimpleInput>>)
    requires i < |inputs|
    requires forall k :: k in before <==> HasKey(inputs[..i], k)
    requires forall k :: k in before ==> before[k] == InputsWithKey(inputs[..i], k)
    requires var id := GroupKey(inputs[i], i);
      && id in after && after[id] == (if id in before then before[id] else []) + [inputs[i]]
      && (forall j :: j != id ==> (j in after <==> j in before))
      && (forall j :: j in before && j != id ==> after[j] == before[j])
    ensures forall k :: k in after <==> HasKey(inputs[..i + 1], k)
    ensures forall k :: k in after ==> after[k] == InputsWithKey(inputs[..i + 1], k)
  {
    var id := GroupKey(inputs[i], i);
    if id !in before {
      InputsWithKeyEmpty(inputs[..i], id);
    }
    forall k | true
      ensures HasKey(inputs[..i + 1], k) <==> HasKey(inputs[..i], k) || k == id
      ensures InputsWithKey(inputs[..i + 1], k)
        == InputsWithKey(inputs[..i], k) + (if id == k then [inputs[i]] else [])
    {
      GroupingStep(inputs, i, k);
    }
  }

  /**
   * `get_wallet_inputs`: the inputs, grouped by `GroupKey`. A key is present exactly
   * when some input has it, and its list holds those inputs in PSBT order.
   */
  method GetWalletInputs(inputs: seq<SimpleInput>) returns (groups: Dict<string, seq<SimpleInput>>)
    ensures groups.Valid()
    ensures forall k :: k in groups.values <==> HasKey(inputs, k)
    ensures forall k :: k in groups.values ==> groups.values[k] == InputsWithKey(inputs, k)
    ensures groups.keys == InsertKeys([], GroupKeys(inputs))
  {
    groups := Empty();
    for i := 0 to |inputs|
      invariant groups.Valid()
      invariant forall k :: k in groups.values <==> HasKey(inputs[..i], k)
      invariant forall k :: k in groups.values ==> groups.values[k] == InputsWithKey(inputs[..i], k)
      invariant groups.keys == InsertKeys([], GroupKeys(inputs[..i]))
    {
      var before, keysBefore := groups.values, groups.keys;
      groups := AppendAt(groups, GroupKey(inputs[i], i), inputs[i]);
      GroupedStep(inputs, i, before, groups.values);
      GroupKeysStep(inputs, i, keysBefore, groups.keys);
    }
    assert inputs[..|inputs|] == inputs;
  }

  /** One step of `get_wallet_inputs` on the key order: a new key goes last. */
  lemma GroupKeysStep(inputs: seq<SimpleInput>, i: nat, before: seq<string>, after: seq<string>)
    requires i < |inputs| && before == InsertKeys([], GroupKeys(inputs[..i]))
    requires var key := GroupKey(inputs[i], i); after == if key in before then before else before + [key]
    ensures after == InsertKeys([], GroupKeys(inputs[..i + 1]))
  {
    assert GroupKeys(inputs[..i + 1]) == GroupKeys(inputs[..i]) + [GroupKey(inputs[i], i)];
    InsertKeysSnoc([], GroupKeys(inputs[..i]), GroupKey(inputs[i], i));
  }

  /** The key of each input, in PSBT order. */
  function GroupKeys(inputs: seq<SimpleInput>): (r: seq<string>)
    ensures |r| == |inputs| && forall i :: 0 <= i < |inputs| ==> r[i] == GroupKey(inputs[i], i)
  {
    seq(|inputs|, i requires 0 <= i < |inputs| => GroupKey(inputs[i], i))
  }

  // ----- signature importers -----

  /** A keystore of an open wallet: its fingerprint and whether it holds a seed. */
  datatype Keystore = Keystore(fingerprint: string, hasMnemonic: bool)

  datatype Wallet = Wallet(id: string, keystores: seq<Keystore>)

  /** The wallet holds the seed of one of `fingerprints`. */
  predicate CanSign(w: Wallet, fingerprints: seq<string>) {
    exists k :: 0 <= k < |w.keystores| && w.keystores[k].hasMnemonic && w.keystores[k].fingerprint in fingerprints
  }

  /** The wallets that can sign for `fingerprints`, each once, in the order they are open. */
  function SeedWallets(wallets: seq<Wallet>, fingerprints: seq<string>): (r: seq<Wallet>)
    ensures NoDuplicates(r)
    ensures forall w :: w in r <==> w in wallets && CanSign(w, fingerprints)
  {
    if wallets == [] then []
    else
      var n := |wallets| - 1;
      var before := SeedWallets(wallets[..n], fingerprints);
      assert forall w :: w in wallets <==> w in wallets[..n] || w == wallets[n] by {
        assert wallets == wallets[..n] + [wallets[n]];
      }
      if CanSign(wallets[n], fingerprints) && wallets[n] !in before then before + [wallets[n]] else before
  }

  /** `get_wallets_with_seed`. */
  method WalletsWithSeed(wallets: seq<Wallet>, fingerprints: seq<string>) returns (result: seq<Wallet>)
    ensures result == SeedWallets(wallets, fingerprints)
  {
    result := [];
    for i := 0 to |wallets|
      invariant result == SeedWallets(wallets[..i], fingerprints)
    {
      assert wallets[..i + 1][..i] == wallets[..i];
      if CanSign(wallets[i], fingerprints) {
        if wallets[i] !in result {
          result := result + [wallets[i]];
        }
      }
    }
    assert wallets[..|wallets|] == wallets;
  }

  /** The fingerprints of all keys of all inputs of a group. */
  function AllFingerprints(inputs: seq<SimpleInput>): seq<string> {
    if inputs == [] then []
    else
      seq(|inputs[0].pubkeys|, k requires 0 <= k < |inputs[0].pubkeys| => inputs[0].pubkeys[k].fingerprint)
      + AllFingerprints(inputs[1..])
  }

  datatype ImporterKind = FileImporter | WalletImporter(walletId: string) | QRImporter | ClipboardImporter | USBImporter

  /** A signature importer: its kind, whether its signature is already there, and its key label. */
  datatype Importer = Importer(kind: ImporterKind, signatureAvailable: bool, keyLabel: string)

  /** The name of the `i`-th signature slot of a group: "group.i". */
  function SlotName(group: string, i: nat): string {
    group + "." + Strings.NatToString(i)
  }

  /** Reads a slot name back: the text before the last '.', and the number after it. */
  function ParseSlot(slot: string): Option<(string, nat)> {
    match Strings.LastIndexOf(slot, '.')
    case None => None
    case Some(dot) =>
      var digits := slot[dot + 1..];
      if |digits| > 0 && forall k :: 0 <= k < |digits| ==> Strings.IsDigit(digits[k])
      then Some((slot[..dot], Strings.DigitsValue(digits)))
      else None
  }

  lemma ParseSlotName(group: string, i: nat)
    ensures ParseSlot(SlotName(group, i)) == Some((group, i))
  {
    var s := SlotName(group, i);
    var digits := Strings.NatToString(i);
    assert forall k :: 0 <= k < |digits| ==> digits[k] != '.';
    Strings.LastIndexOfJoined(group, '.', digits);
    assert s == group + ['.'] + digits;
    assert s[|group| + 1..] == digits && s[..|group|] == group;
    Strings.NatToStringRoundTrip(i);
  }

  /** Different slots of different groups never share a name. */
  lemma SlotNameInjective(g1: string, i1: nat, g2: string, i2: nat)
    requires SlotName(g1, i1) == SlotName(g2, i2)
    ensures g1 == g2 && i1 == i2
  {
    ParseSlotName(g1, i1);
    ParseSlotName(g2, i2);
  }

  /**
   * The importers for a required signature that is still missing: one per open wallet
   * holding a seed for a key of the group (only when the first input lists keys), then
   * QR, file, clipboard and USB.
   */
  function MissingSignatureImporters(group: string, inputs: seq<SimpleInput>, wallets: seq<Wallet>): seq<Importer>
    requires |inputs| > 0
  {
    var ws := if |inputs[0].pubkeys| > 0 then SeedWallets(wallets, AllFingerprints(inputs)) else [];
    seq(|ws|, k requires 0 <= k < |ws| => Importer(WalletImporter(ws[k].id), false, group))
    + [Importer(QRImporter, false, group), Importer(FileImporter, false, group),
       Importer(ClipboardImporter, false, group), Importer(USBImporter, false, group)]
  }

  /** The `i`-th slot: a signature already present is shown as a file importer with its fingerprint. */
  function SlotImporters(group: string, inputs: seq<SimpleInput>, wallets: seq<Wallet>, i: nat): seq<Importer>
    requires |inputs| > 0
  {
    var signed := inputs[0].signedPubkeys;
    if i < |signed| then [Importer(FileImporter, true, signed[i].fingerprint)]
    else MissingSignatureImporters(group, inputs, wallets)
  }

  /** Slot `i` of `group` exists: the group has inputs and `i` is below its first input's m. */
  predicate IsSlot(groups: Dict<string, seq<SimpleInput>>, group: string, i: nat) {
    group in groups.values && |groups.values[group]| > 0 && i < groups.values[group][0].estimatedM
  }

  /** Builds the importer list of one slot, as the body of the inner loop appends it. */
  method BuildSlot(group: string, inputs: seq<SimpleInput>, wallets: seq<Wallet>, i: nat) returns (l: seq<Importer>)
    requires |inputs| > 0
    ensures l == SlotImporters(group, inputs, wallets, i)
  {
    var signed := inputs[0].signedPubkeys;
    if i < |signed| {
      return [Importer(FileImporter, true, signed[i].fingerprint)];
    }
    var ws: seq<Wallet> := [];
    if |inputs[0].pubkeys| > 0 {
      ws := WalletsWithSeed(wallets, AllFingerprints(inputs));
    }
    l := WalletImporters(ws, group);
    l := AppendFixedImporters(l, group);
  }

  /** One wallet importer per wallet, in order. */
  method WalletImporters(ws: seq<Wallet>, group: string) returns (l: seq<Importer>)
    ensures l == seq(|ws|, k requires 0 <= k < |ws| => Importer(WalletImporter(ws[k].id), false, group))
  {
    l := [];
    for k := 0 to |ws|
      invariant l == seq(k, j requires 0 <= j < k => Importer(WalletImporter(ws[j].id), false, group))
    {
      l := l + [Importer(WalletImporter(ws[k].id), false, group)];
    }
  }

  /** The QR, file, clipboard and USB importers, appended in that order. */
  method AppendFixedImporters(l0: seq<Importer>, group: string) returns (l: seq<Importer>)
    ensures l == l0 + [Importer(QRImporter, false, group), Importer(FileImporter, false, group),
      Importer(ClipboardImporter, false, group), Importer(USBImporter, false, group)]
  {
    var kinds := [QRImporter, FileImporter, ClipboardImporter, USBImporter];
    l := l0;
    for k := 0 to |kinds|
      invariant l == l0 + seq(k, j requires 0 <= j < k => Importer(kinds[j], false, group))
    {
      l := l + [Importer(kinds[k], false, group)];
    }
  }

  /** Every slot of the groups in `done` holds exactly its importers. */
  ghost predicate SlotsFilled(importers: Dict<string, seq<Importer>>, groups: Dict<string, seq<SimpleInput>>,
                              wallets: seq<Wallet>, done: set<string>)
  {
    forall g, i: nat :: g in done && IsSlot(groups, g, i) ==>
      SlotName(g, i) in importers.values
      && importers.values[SlotName(g, i)] == SlotImporters(g, groups.values[g], wallets, i)
  }

  /** Every entry is a slot of a group in `done`. */
  ghost predicate OnlySlots(importers: Dict<string, seq<Importer>>, groups: Dict<string, seq<SimpleInput>>, done: set<string>) {
    forall k :: k in importers.values ==>
      ParseSlot(k).Some? && ParseSlot(k).value.0 in done && IsSlot(groups, ParseSlot(k).value.0, ParseSlot(k).value.1)
  }

  /** Slots `0 .. n - 1` of `group` hold exactly their importers. */
  ghost predicate GroupFilledBelow(importers: Dict<string, seq<Importer>>, groups: Dict<string, seq<SimpleInput>>,
                                   wallets: seq<Wallet>, group: string, n: nat)
    requires group in groups.values && |groups.values[group]| > 0
  {
    forall i: nat :: i < n ==>
      SlotName(group, i) in importers.values
      && importers.values[SlotName(group, i)] == SlotImporters(group, groups.values[group], wallets, i)
  }

  /** Every entry is a slot of a group in `done`, or one of the first `n` slots of `group`. */
  ghost predicate SlotsWithin(importers: Dict<string, seq<Importer>>, groups: Dict<string, seq<SimpleInput>>,
                              done: set<string>, group: string, n: nat)
  {
    forall k :: k in importers.values ==>
      ParseSlot(k).Some? && IsSlot(groups, ParseSlot(k).value.0, ParseSlot(k).value.1)
      && (ParseSlot(k).value.0 in done || (ParseSlot(k).value.0 == group && ParseSlot(k).value.1 < n))
  }

  /** Filling slot `i` of `group` keeps everything filled so far: the slot's name is new. */
  lemma FillSlot(importers: Dict<string, seq<Importer>>, groups: Dict<string, seq<SimpleInput>>,
                 wallets: seq<Wallet>, done: set<string>, group: string, i: nat, v: seq<Importer>)
    requires importers.Valid() && group !in done && IsSlot(groups, group, i)
    requires SlotsFilled(importers, groups, wallets, done) && GroupFilledBelow(importers, groups, wallets, group, i)
    requires SlotsWithin(importers, groups, done, group, i)
    requires v == SlotImporters(group, groups.values[group], wallets, i)
    ensures SlotName(group, i) !in importers.values
    ensures var r := Put(importers, SlotName(group, i), v);
      SlotsFilled(r, groups, wallets, done) && GroupFilledBelow(r, groups, wallets, group, i + 1)
      && SlotsWithin(r, groups, done, group, i + 1)
  {
    var slot := SlotName(group, i);
    ParseSlotName(group, i);
    var r := Put(importers, slot, v);
    forall g, i': nat | g in done && IsSlot(groups, g, i')
      ensures SlotName(g, i') != slot && SlotName(g, i') in r.values
      ensures r.values[SlotName(g, i')] == SlotImporters(g, groups.values[g], wallets, i')
    {
      ParseSlotName(g, i');
    }
    forall i': nat | i' < i
      ensures SlotName(group, i') != slot && SlotName(group, i') in r.values
      ensures r.values[SlotName(group, i')] == SlotImporters(group, groups.values[group], wallets, i')
    {
      ParseSlotName(group, i');
    }
  }

  /** The body of the outer loop: adds the slots of one group with inputs. */
  method AddGroupSlots(importers: Dict<string, seq<Importer>>, groups: Dict<string, seq<SimpleInput>>,
                       wallets: seq<Wallet>, group: string, ghost done: set<string>)
    returns (r: Dict<string, seq<Importer>>)
    requires importers.Valid() && group in groups.values && |groups.values[group]| > 0 && group !in done
    requires SlotsFilled(importers, groups, wallets, done) && OnlySlots(importers, groups, done)
    ensures r.Valid() && SlotsFilled(r, groups, wallets, done + {group}) && OnlySlots(r, groups, done + {group})
  {
    r := importers;
    var inputs := groups.values[group];
    var m := inputs[0].estimatedM;
    for i := 0 to m
      invariant r.Valid() && SlotsFilled(r, groups, wallets, done)
      invariant GroupFilledBelow(r, groups, wallets, group, i) && SlotsWithin(r, groups, done, group, i)
    {
      // `setdefault` always starts a fresh list: no two slots share a name
      var slot := SlotName(group, i);
      var added := BuildSlot(group, inputs, wallets, i);
      FillSlot(r, groups, wallets, done, group, i, added);
      r := Put(r, slot, added);
    }
    GroupComplete(r, groups, wallets, done, group);
  }

  lemma GroupComplete(importers: Dict<string, seq<Importer>>, groups: Dict<string, seq<SimpleInput>>,
                      wallets: seq<Wallet>, done: set<string>, group: string)
    requires group in groups.values && |groups.values[group]| > 0
    requires SlotsFilled(importers, groups, wallets, done)
    requires GroupFilledBelow(importers, groups, wallets, group, groups.values[group][0].estimatedM)
    requires SlotsWithin(importers, groups, done, group, groups.values[group][0].estimatedM)
    ensures SlotsFilled(importers, groups, wallets, done + {group}) && OnlySlots(importers, groups, done + {group})
  {
  }

  /**
   * `get_combined_signature_importers`: one entry per required signature of each
   * group, named "group.i" for `i` below the m of the group's first input, holding
   * exactly that slot's importers; no other entry exists.
   */
  method CombinedSignatureImporters(groups: Dict<string, seq<SimpleInput>>, wallets: seq<Wallet>)
    returns (importers: Dict<string, seq<Importer>>)
    requires groups.Valid()
    ensures importers.Valid()
    ensures forall g, i: nat :: IsSlot(groups, g, i) ==>
      SlotName(g, i) in importers.values
      && importers.values[SlotName(g, i)] == SlotImporters(g, groups.values[g], wallets, i)
    ensures forall k :: k in importers.values ==>
      ParseSlot(k).Some? && IsSlot(groups, ParseSlot(k).value.0, ParseSlot(k).value.1)
  {
    importers := Empty();
    ghost var done: set<string> := {};
    for j := 0 to |groups.keys|
      invariant importers.Valid()
      invariant done == KeysBefore(groups, j)
      invariant SlotsFilled(importers, groups, wallets, done) && OnlySlots(importers, groups, done)
    {
      var group := groups.keys[j];
      var inputs := groups.values[group];
      KeysBeforeStep(groups, j);
      if |inputs| > 0 {
        importers := AddGroupSlots(importers, groups, wallets, group, done);
      } else {
        EmptyGroupHasNoSlots(importers, groups, wallets, done, group);
      }
      done := done + {group};
    }
    AllGroupsDone(importers, groups, wallets);
  }

  /** The groups before position `j` of the key order. */
  ghost function KeysBefore(groups: Dict<string, seq<SimpleInput>>, j: nat): set<string>
    requires j <= |groups.keys|
  {
    set g | g in groups.keys[..j]
  }

  lemma KeysBeforeStep(groups: Dict<string, seq<SimpleInput>>, j: nat)
    requires groups.Valid() && j < |groups.keys|
    ensures groups.keys[j] in groups.values && groups.keys[j] !in KeysBefore(groups, j)
    ensures KeysBefore(groups, j + 1) == KeysBefore(groups, j) + {groups.keys[j]}
  {
    assert groups.keys[..j + 1] == groups.keys[..j] + [groups.keys[j]];
  }

  lemma EmptyGroupHasNoSlots(importers: Dict<string, seq<Importer>>, groups: Dict<string, seq<SimpleInput>>,
                             wallets: seq<Wallet>, done: set<string>, group: string)
    requires group in groups.values && |groups.values[group]| == 0
    requires SlotsFilled(importers, groups, wallets, done) && OnlySlots(importers, groups, done)
    ensures SlotsFilled(importers, groups, wallets, done + {group}) && OnlySlots(importers, groups, done + {group})
  {
  }

  lemma AllGroupsDone(importers: Dict<string, seq<Importer>>, groups: Dict<string, seq<SimpleInput>>, wallets: seq<Wallet>)
    requires groups.Valid()
    requires SlotsFilled(importers, groups, wallets, KeysBefore(groups, |groups.keys|))
    requires OnlySlots(importers, groups, KeysBefore(groups, |groups.keys|))
    ensures forall g, i: nat :: IsSlot(groups, g, i) ==>
      SlotName(g, i) in importers.values
      && importers.values[SlotName(g, i)] == SlotImporters(g, groups.values[g], wallets, i)
    ensures forall k :: k in importers.values ==>
      ParseSlot(k).Some? && IsSlot(groups, ParseSlot(k).value.0, ParseSlot(k).value.1)
  {
    assert groups.keys[..|groups.keys|] == groups.keys;
  }

  // ----- fee of a transaction -----

  /** Fee, virtual size and whether the size is an estimate. */
  datatype FeeInfo = FeeInfo(feeAmount: int, vsize: nat, isEstimated: bool)

  /** A wallet's txos: outpoint to the txo's value, `None` when the value is unknown. */
  type Txos = map<OutPoint, Option<int>>

  /** The txos of all wallets merged with `dict.update`, wallet after wallet. */
  function MergedTxos(walletTxos: seq<Txos>): Txos {
    if walletTxos == [] then map[]
    else
      var n := |walletTxos| - 1;
      MergedTxos(walletTxos[..n]) + walletTxos[n]
  }

  /** The merged txos know an outpoint exactly when some wallet does. */
  lemma {:induction false} MergedTxosKnows(walletTxos: seq<Txos>, o: OutPoint)
    ensures o in MergedTxos(walletTxos) <==> exists w :: 0 <= w < |walletTxos| && o in walletTxos[w]
  {
    if walletTxos != [] {
      var n := |walletTxos| - 1;
      var prefix := walletTxos[..n];
      MergedTxosKnows(prefix, o);
      if o in MergedTxos(prefix) {
        var w :| 0 <= w < n && o in prefix[w];
        assert walletTxos[w] == prefix[w];
      }
      if exists w :: 0 <= w < |walletTxos| && o in walletTxos[w] {
        var w :| 0 <= w < |walletTxos| && o in walletTxos[w];
        if w < n {
          assert walletTxos[w] == prefix[w];
        }
      }
    }
  }

  /** When several wallets know an outpoint, the last of them decides its value. */
  lemma {:induction false} LaterWalletWins(walletTxos: seq<Txos>, w: nat, o: OutPoint)
    requires w < |walletTxos| && o in walletTxos[w]
    requires forall v :: w < v < |walletTxos| ==> o !in walletTxos[v]
    ensures o in MergedTxos(walletTxos) && MergedTxos(walletTxos)[o] == walletTxos[w][o]
    decreases |walletTxos|
  {
    var n := |walletTxos| - 1;
    if w < n {
      var prefix := walletTxos[..n];
      forall v | w < v < n
        ensures o !in prefix[v]
      {
        assert prefix[v] == walletTxos[v];
      }
      assert prefix[w] == walletTxos[w];
      LaterWalletWins(prefix, w, o);
      assert o !in walletTxos[n];
    }
  }

  ghost predicate AllInputsKnown(inputs: seq<OutPoint>, txos: Txos) {
    forall i :: 0 <= i < |inputs| ==> inputs[i] in txos && txos[inputs[i]].Some?
  }

  /** The summed value of the inputs, each looked up in `txos`. */
  function InputTotal(inputs: seq<OutPoint>, txos: Txos): int
    requires AllInputsKnown(inputs, txos)
  {
    if inputs == [] then 0
    else
      var n := |inputs| - 1;
      InputTotal(inputs[..n], txos) + txos[inputs[n]].value
  }

  function Sum(xs: seq<int>): int {
    if xs == [] then 0 else Sum(xs[..|xs| - 1]) + xs[|xs| - 1]
  }

  /**
   * `calc_fee_info`: `None` exactly when some input is unknown to every open wallet or
   * has no known value; otherwise the fee is the inputs' total minus the outputs'.
   */
  method CalcFeeInfo(inputs: seq<OutPoint>, outputs: seq<int>, walletTxos: seq<Txos>, vsize: nat, hasFinalSize: bool)
    returns (r: Option<FeeInfo>)
    ensures r.None? <==> !AllInputsKnown(inputs, MergedTxos(walletTxos))
    ensures r.Some? ==>
      r.value.feeAmount + Sum(outputs) == InputTotal(inputs, MergedTxos(walletTxos))
      && r.value.vsize == vsize && r.value.isEstimated == !hasFinalSize
  {
    var txos := MergeTxos(walletTxos);
    var total := SumInputs(inputs, txos);
    if total.None? {
      return None;
    }
    var totalOutput := Sum(outputs);
    r := Some(FeeInfo(total.value - totalOutput, vsize, !hasFinalSize));
  }

  /** The `txos.update(...)` loop of `calc_fee_info`. */
  method MergeTxos(walletTxos: seq<Txos>) returns (txos: Txos)
    ensures txos == MergedTxos(walletTxos)
  {
    txos := map[];
    for w := 0 to |walletTxos|
      invariant txos == MergedTxos(walletTxos[..w])
    {
      assert walletTxos[..w + 1][..w] == walletTxos[..w];
      txos := txos + walletTxos[w];
    }
    assert walletTxos[..|walletTxos|] == walletTxos;
  }

  /** The summing loop of `calc_fee_info`: `None` at the first input without a known value. */
  method SumInputs(inputs: seq<OutPoint>, txos: Txos) returns (total: Option<int>)
    ensures total.None? <==> !AllInputsKnown(inputs, txos)
    ensures total.Some? ==> AllInputsKnown(inputs, txos) && total.value == InputTotal(inputs, txos)
  {
    var sum := 0;
    for i := 0 to |inputs|
      invariant AllInputsKnown(inputs[..i], txos)
      invariant sum == InputTotal(inputs[..i], txos)
    {
      if inputs[i] !in txos || txos[inputs[i]].None? {
        return None;
      }
      assert inputs[..i + 1][..i] == inputs[..i];
      sum := sum + txos[inputs[i]].value;
    }
    assert inputs[..|inputs|] == inputs;
    total := Some(sum);
  }

  // ----- the transaction creator -----

  /** A recipient widget: its amount, the maximum of its amount box, and its "send max" button. */
  datatype RecipientBox = RecipientBox(amount: int, maximum: int, sendMax: bool)

  /** The summed value of the selected coins; an empty slot (`None`) is skipped. */
  function SelectedValue(utxos: seq<Option<int>>): int {
    if utxos == [] then 0
    else
      var n := |utxos| - 1;
      SelectedValue(utxos[..n]) + (if utxos[n].Some? then utxos[n].value else 0)
  }

  /** The amounts of the recipients counted as outputs: all of them, or only those without "send max". */
  function CountedAmount(rs: seq<RecipientBox>, includeMaxChecked: bool): int {
    if rs == [] then 0
    else
      var n := |rs| - 1;
      CountedAmount(rs[..n], includeMaxChecked)
      + (if (rs[n].sendMax && includeMaxChecked) || !rs[n].sendMax then rs[n].amount else 0)
  }

  function MaxCount(rs: seq<RecipientBox>): (r: nat)
    ensures r <= |rs|
    ensures r == 0 <==> forall k :: 0 <= k < |rs| ==> !rs[k].sendMax
  {
    if rs == [] then 0
    else
      var n := |rs| - 1;
      assert forall k :: 0 <= k < n ==> rs[..n][k] == rs[k];
      MaxCount(rs[..n]) + (if rs[n].sendMax then 1 else 0)
  }

  /** `get_total_change_amount`: the selected value not yet assigned to a counted recipient. */
  function TotalChangeAmount(utxos: seq<Option<int>>, rs: seq<RecipientBox>, includeMaxChecked: bool): int {
    SelectedValue(utxos) - CountedAmount(rs, includeMaxChecked)
  }

  /** The amount each "send max" recipient receives: the change after the fee, split evenly and rounded down. */
  function MaxShare(utxos: seq<Option<int>>, rs: seq<RecipientBox>, feeAmount: int): int
    requires MaxCount(rs) > 0
  {
    (TotalChangeAmount(utxos, rs, false) - feeAmount) / MaxCount(rs)
  }

  /** `after` is `before` with every "send max" amount replaced by `share` and every maximum set to `maximum`. */
  ghost predicate Reapplied(before: seq<RecipientBox>, after: seq<RecipientBox>, maximum: int, share: int) {
    |after| == |before|
    && forall k :: 0 <= k < |before| ==>
      after[k] == RecipientBox(if before[k].sendMax then share else before[k].amount, maximum, before[k].sendMax)
  }

  lemma {:induction false} ReappliedAmount(before: seq<RecipientBox>, after: seq<RecipientBox>, maximum: int, share: int)
    requires Reapplied(before, after, maximum, share)
    ensures CountedAmount(after, true) == CountedAmount(before, false) + MaxCount(before) * share
    decreases |before|
  {
    if before != [] {
      var n := |before| - 1;
      assert Reapplied(before[..n], after[..n], maximum, share);
      ReappliedAmount(before[..n], after[..n], maximum, share);
      Strings.MulSucc(MaxCount(before[..n]), share);
    }
  }

  /**
   * After `reapply_max_amounts` the recipients and the fee together spend the whole
   * selection except for less than one satoshi per "send max" recipient, the
   * remainder of the even split.
   */
  lemma MaxAmountsSpendSelection(utxos: seq<Option<int>>, before: seq<RecipientBox>, after: seq<RecipientBox>, feeAmount: int)
    requires MaxCount(before) > 0
    requires Reapplied(before, after, SelectedValue(utxos), MaxShare(utxos, before, feeAmount))
    ensures 0 <= SelectedValue(utxos) - feeAmount - CountedAmount(after, true) < MaxCount(before)
  {
    var count := MaxCount(before);
    var change := TotalChangeAmount(utxos, before, false) - feeAmount;
    ReappliedAmount(before, after, SelectedValue(utxos), change / count);
    FloorSplit(change, count);
  }

  /** Splitting `change` evenly over `count` parts, rounded down, leaves less than `count`. */
  lemma FloorSplit(change: int, count: int)
    requires count > 0
    ensures 0 <= change - count * (change / count) < count
  {
  }

  /** `estimate_fee_info`'s counts: one output per recipient plus the change, at least one input. */
  function FeeEstimateCounts(recipientCount: nat, selectedCount: nat): (r: (nat, nat))
    ensures r.1 == recipientCount + 1
    ensures r.0 >= 1 && r.0 >= selectedCount
    ensures selectedCount > 0 ==> r.0 == selectedCount
    ensures selectedCount == 0 ==> r.0 == 1
  {
    (if selectedCount > 1 then selectedCount else 1, recipientCount + 1)
  }

  /** The outpoints of `xs` that are not in `known`, in order (repeats in `xs` are kept). */
  function NotIn(xs: seq<OutPoint>, known: seq<OutPoint>): seq<OutPoint>
  {
    if xs == [] then []
    else
      var n := |xs| - 1;
      NotIn(xs[..n], known) + (if xs[n] !in known then [xs[n]] else [])
  }

  /** The outpoints kept are exactly the given ones that are not already known. */
  lemma {:induction false} NotInMembers(xs: seq<OutPoint>, known: seq<OutPoint>)
    ensures forall o :: o in NotIn(xs, known) <==> o in xs && o !in known
    decreases |xs|
  {
    if xs != [] {
      var n := |xs| - 1;
      assert xs == xs[..n] + [xs[n]];
      NotInMembers(xs[..n], known);
    }
  }

  lemma {:induction false} NotInCovered(xs: seq<OutPoint>, known: seq<OutPoint>)
    requires forall x :: x in xs ==> x in known
    ensures NotIn(xs, known) == []
    decreases |xs|
  {
    if xs != [] {
      NotInCovered(xs[..|xs| - 1], known);
    }
  }

  /** Adding the same outpoints a second time adds nothing. */
  lemma AddOutpointsIdempotent(xs: seq<OutPoint>, known: seq<OutPoint>)
    ensures NotIn(xs, known + NotIn(xs, known)) == []
  {
    NotInMembers(xs, known);
    NotInCovered(xs, known + NotIn(xs, known));
  }

  /** The transaction-creation tab: its coins, hand-added outpoints and recipients. */
  class TxCreator {
    /** The outpoints of the wallet's own utxos. */
    var walletOutpoints: seq<OutPoint>
    var additionalOutpoints: seq<OutPoint>
    var recipients: seq<RecipientBox>
    /** The coins of the current selection (a `None` is an empty entry of the selection). */
    var selectedUtxos: seq<Option<int>>

    constructor(walletOutpoints: seq<OutPoint>, recipients: seq<RecipientBox>, selectedUtxos: seq<Option<int>>)
      ensures this.walletOutpoints == walletOutpoints && additionalOutpoints == []
      ensures this.recipients == recipients && this.selectedUtxos == selectedUtxos
    {
      this.walletOutpoints := walletOutpoints;
      additionalOutpoints := [];
      this.recipients := recipients;
      this.selectedUtxos := selectedUtxos;
    }

    /** `get_outpoints`: the wallet's utxos, then the added ones. */
    function GetOutpoints(): seq<OutPoint>
      reads this
    {
      walletOutpoints + additionalOutpoints
    }

    /**
     * `add_outpoints`: appends each given outpoint that was not known before the call;
     * afterwards every given outpoint is known.
     */
    method AddOutpoints(outpoints: seq<OutPoint>)
      modifies this
      ensures additionalOutpoints == old(additionalOutpoints) + NotIn(outpoints, old(GetOutpoints()))
      ensures forall o :: o in outpoints ==> o in GetOutpoints()
      ensures walletOutpoints == old(walletOutpoints) && recipients == old(recipients)
      ensures selectedUtxos == old(selectedUtxos)
    {
      var oldOutpoints := GetOutpoints();
      for i := 0 to |outpoints|
        invariant additionalOutpoints == old(additionalOutpoints) + NotIn(outpoints[..i], oldOutpoints)
        invariant walletOutpoints == old(walletOutpoints) && recipients == old(recipients)
        invariant selectedUtxos == old(selectedUtxos)
      {
        NotInSnoc(outpoints[..i], outpoints[i], oldOutpoints);
        assert outpoints[..i + 1] == outpoints[..i] + [outpoints[i]];
        if outpoints[i] !in oldOutpoints {
          additionalOutpoints := additionalOutpoints + [outpoints[i]];
        }
      }
      assert outpoints[..|outpoints|] == outpoints;
      NotInMembers(outpoints, oldOutpoints);
    }

    function GetTotalInputValue(): int
      reads this
    {
      SelectedValue(selectedUtxos)
    }

    /**
     * `reapply_max_amounts`: every amount box gets the selection's value as maximum,
     * and every "send max" recipient gets an even share of the change left after the
     * fee; the other recipients keep their amounts.
     */
    method ReapplyMaxAmounts(feeAmount: int)
      modifies this
      ensures MaxCount(old(recipients)) > 0 ==>
        Reapplied(old(recipients), recipients, old(GetTotalInputValue()), MaxShare(old(selectedUtxos), old(recipients), feeAmount))
      ensures MaxCount(old(recipients)) == 0 ==>
        |recipients| == |old(recipients)|
        && forall k :: 0 <= k < |recipients| ==>
          recipients[k] == old(recipients[k]).(maximum := old(GetTotalInputValue()))
      ensures walletOutpoints == old(walletOutpoints) && additionalOutpoints == old(additionalOutpoints)
      ensures selectedUtxos == old(selectedUtxos)
    {
      var total := GetTotalInputValue();
      var before := recipients;
      for k := 0 to |recipients|
        invariant |recipients| == |before| && selectedUtxos == old(selectedUtxos)
        invariant forall j :: 0 <= j < |before| ==>
          recipients[j] == before[j].(maximum := if j < k then total else before[j].maximum)
        invariant walletOutpoints == old(walletOutpoints) && additionalOutpoints == old(additionalOutpoints)
      {
        recipients := recipients[k := recipients[k].(maximum := total)];
      }
      CountedAmountIgnoresMaximum(before, recipients, false);
      MaxCountIgnoresMaximum(before, recipients);
      var count := MaxCount(recipients);
      var change := TotalChangeAmount(selectedUtxos, recipients, false) - feeAmount;
      if count > 0 {
        var share := change / count;
        ghost var capped := recipients;
        for k := 0 to |recipients|
          invariant |recipients| == |capped| && selectedUtxos == old(selectedUtxos)
          invariant forall j :: 0 <= j < |capped| ==>
            recipients[j] == (if j < k && capped[j].sendMax then capped[j].(amount := share) else capped[j])
          invariant walletOutpoints == old(walletOutpoints) && additionalOutpoints == old(additionalOutpoints)
        {
          if recipients[k].sendMax {
            recipients := recipients[k := recipients[k].(amount := share)];
          }
        }
      }
    }
  }

  lemma NotInSnoc(xs: seq<OutPoint>, x: OutPoint, known: seq<OutPoint>)
    ensures NotIn(xs + [x], known) == NotIn(xs, known) + (if x !in known then [x] else [])
  {
    assert (xs + [x])[..|xs|] == xs;
  }

  lemma {:induction false} CountedAmountIgnoresMaximum(a: seq<RecipientBox>, b: seq<RecipientBox>, includeMaxChecked: bool)
    requires |a| == |b| && forall k :: 0 <= k < |a| ==> a[k].amount == b[k].amount && a[k].sendMax == b[k].sendMax
    ensures CountedAmount(a, includeMaxChecked) == CountedAmount(b, includeMaxChecked)
    decreases |a|
  {
    if a != [] {
      var n := |a| - 1;
      CountedAmountIgnoresMaximum(a[..n], b[..n], includeMaxChecked);
    }
  }

  lemma {:induction false} MaxCountIgnoresMaximum(a: seq<RecipientBox>, b: seq<RecipientBox>)
    requires |a| == |b| && forall k :: 0 <= k < |a| ==> a[k].sendMax == b[k].sendMax
    ensures MaxCount(a) == MaxCount(b)
    decreases |a|
  {
    if a != [] {
      var n := |a| - 1;
      MaxCountIgnoresMaximum(a[..n], b[..n]);
    }
  }

  // ----- linking warning -----

  /** The bar warning that a transaction links coins of several categories. */
  class LinkingWarningBar {
    var categoryDict: map<string, set<string>>
    var visible: bool

    constructor()
      ensures categoryDict == map[] && !visible
    {
      categoryDict := map[];
      visible := false;
    }

    /** Shown exactly when more than one category is involved. */
    method SetCategoryDict(categoryDict: map<string, set<string>>)
      modifies this
      ensures this.categoryDict == categoryDict
      ensures visible <==> |categoryDict| > 1
    {
      this.categoryDict := categoryDict;
      visible := |this.categoryDict| > 1;
    }
  }
}
