/**
 * The search box over all open wallets: result items linked to their parents, the
 * search that builds the result tree (attaching a wallet and a group only once
 * something in it matched), the highlighting of the matched text, and the order in
 * which a clicked result and its ancestors are handled.
 */
module SearchTreeView {
  import opened Wrappers
  import Strings
  import Collections

  // ----- result items as objects -----

  /** A node of the result tree; it appends itself to its parent's children at most once. */
  class ResultItem {
    var text: string
    var parent: ResultItem?
    var children: seq<ResultItem>

    /** A new item has no children and, given a parent, is that parent's last child. */
    constructor(text: string, parent: ResultItem?)
      modifies parent
      ensures this.text == text && this.parent == parent && children == []
      ensures parent != null ==> parent.children == old(parent.children) + [this]
      ensures parent != null ==> parent.text == old(parent.text) && parent.parent == old(parent.parent)
    {
      this.text := text;
      this.parent := null;
      children := [];
      new;
      SetParent(parent);
    }

    /** `set_parent`: records the parent and joins its children unless already there. */
    method SetParent(parent: ResultItem?)
      modifies this, parent
      ensures this.parent == parent && text == old(text)
      ensures parent != this ==> children == old(children)
      ensures parent != null ==> parent.text == old(parent.text)
      ensures parent != null && parent != this ==> parent.parent == old(parent.parent)
      ensures parent != null ==>
        parent.children == if this in old(parent.children) then old(parent.children) else old(parent.children) + [this]
    {
      this.parent := parent;
      if this.parent != null {
        if this !in this.parent.children {
          this.parent.children := this.parent.children + [this];
        }
      }
    }
  }

  /** Calling `set_parent` twice with the same parent adds the item once. */
  method SetParentTwice(item: ResultItem, parent: ResultItem)
    requires item != parent
    modifies item, parent
    ensures parent.children == if item in old(parent.children) then old(parent.children) else old(parent.children) + [item]
    ensures item.parent == parent
  {
    item.SetParent(parent);
    item.SetParent(parent);
  }

  /**
   * `demo_do_search`: an empty text gives a childless root; any other text one
   * wallet "test" with the groups "addresses", "utxo" and "history", each holding
   * "aaaa<text>aaaa" and "bbbb<text>bbbb" for the stripped text.
   */
  method DemoDoSearch(searchText: string) returns (root: ResultItem)
    ensures fresh(root) && root.text == "" && root.parent == null
    ensures searchText == "" ==> root.children == []
    ensures searchText != "" ==>
      |root.children| == 1 && root.children[0].text == "test"
      && |root.children[0].children| == 3
      && root.children[0].children[0].text == "addresses"
      && root.children[0].children[1].text == "utxo"
      && root.children[0].children[2].text == "history"
      && forall g :: 0 <= g < 3 ==>
        |root.children[0].children[g].children| == 2
        && root.children[0].children[g].children[0].text == "aaaa" + Strings.Strip(searchText) + "aaaa"
        && root.children[0].children[g].children[1].text == "bbbb" + Strings.Strip(searchText) + "bbbb"
  {
    root := new ResultItem("", null);
    if searchText == "" {
      return;
    }
    var text := Strings.Strip(searchText);
    var wallet := new ResultItem("test", root);
    AddDemoGroups(wallet, text);
  }

  /** The groups "addresses", "utxo" and "history" under the demo wallet, each with its two leaves. */
  method AddDemoGroups(wallet: ResultItem, text: string)
    requires wallet.children == []
    modifies wallet
    ensures wallet.text == old(wallet.text) && wallet.parent == old(wallet.parent)
    ensures |wallet.children| == 3
      && wallet.children[0].text == "addresses"
      && wallet.children[1].text == "utxo"
      && wallet.children[2].text == "history"
      && forall g :: 0 <= g < 3 ==>
        |wallet.children[g].children| == 2
        && wallet.children[g].children[0].text == "aaaa" + text + "aaaa"
        && wallet.children[g].children[1].text == "bbbb" + text + "bbbb"
  {
    var addresses := new ResultItem("addresses", wallet);
    var utxo := new ResultItem("utxo", wallet);
    var history := new ResultItem("history", wallet);
    var groups := [addresses, utxo, history];
    for g := 0 to 3
      invariant wallet.children == groups
      invariant wallet.text == old(wallet.text) && wallet.parent == old(wallet.parent)
      invariant addresses.text == "addresses" && utxo.text == "utxo" && history.text == "history"
      invariant forall h :: 0 <= h < g ==>
        |groups[h].children| == 2
        && groups[h].children[0].text == "aaaa" + text + "aaaa"
        && groups[h].children[1].text == "bbbb" + text + "bbbb"
      invariant forall h :: g <= h < 3 ==> groups[h].children == []
    {
      AddDemoLeaves(groups[g], text);
    }
  }

  /** The inner loop of `demo_do_search`: two leaves "aaaa<text>aaaa" and "bbbb<text>bbbb" under `l`. */
  method AddDemoLeaves(l: ResultItem, text: string)
    requires l.children == []
    modifies l
    ensures l.text == old(l.text) && l.parent == old(l.parent)
    ensures |l.children| == 2
    ensures l.children[0].text == "aaaa" + text + "aaaa" && l.children[1].text == "bbbb" + text + "bbbb"
  {
    var txts := ["aaaa", "bbbb"];
    for t := 0 to 2
      invariant l.text == old(l.text) && l.parent == old(l.parent)
      invariant |l.children| == t
      invariant forall k :: 0 <= k < t ==> l.children[k].text == txts[k] + text + txts[k]
    {
      var leaf := new ResultItem(txts[t] + text + txts[t], l);
    }
  }

  // ----- the search, on values -----

  /** What a result selects when clicked. */
  datatype Target = NoTarget | WalletTab | AddressesTab | AddressList | HistoryTab | HistoryList | SendTab | UtxoList

  /** A result tree node: its text, what it selects, the key it selects, and its children. */
  datatype Item = Item(text: string, target: Target, key: Option<string>, children: seq<Item>)

  /** A spendable or spent output of a wallet; `spentBy` is "" while unspent. */
  datatype Txo = Txo(outpoint: string, spentBy: string)

  /** What the search reads from one open wallet: addresses and txids with their labels ("" for none). */
  datatype WalletData = WalletData(
    id: string,
    addresses: seq<(string, string)>,
    txids: seq<(string, string)>,
    txos: seq<Txo>)

  datatype Group = AddressesGroup | TxidsGroup | UtxosGroup | SpentGroup

  function Bold(s: string): string {
    "<span style='font-weight:bold;'>" + s + "</span>"
  }

  const HighlightOpen := "<span style='background-color: #ADD8E6;'>"
  const HighlightClose := "</span>"

  /** `format_result_text`: every occurrence of the search text wrapped in a highlight span. */
  function FormatResultText(searchText: string, s: string): string {
    Strings.ReplaceAll(s, searchText, HighlightOpen + searchText + HighlightClose)
  }

  /**
   * The highlighted text is the original plus one opening and one closing tag per
   * occurrence, and a text without the search text comes back unchanged.
   */
  lemma FormatResultTextWraps(searchText: string, s: string)
    ensures |FormatResultText(searchText, s)|
      == |s| + Strings.Count(s, searchText) * (|HighlightOpen| + |HighlightClose|)
    ensures searchText != [] && !Strings.Contains(s, searchText) ==> FormatResultText(searchText, s) == s
    ensures searchText != [] ==> (Strings.Count(s, searchText) > 0 <==> Strings.Contains(s, searchText))
  {
    Strings.ReplaceAllLength(s, searchText, HighlightOpen + searchText + HighlightClose);
    if searchText != [] {
      Strings.CountPositiveIffContains(s, searchText);
      if !Strings.Contains(s, searchText) {
        Strings.ReplaceAllAbsent(s, searchText, HighlightOpen + searchText + HighlightClose);
      }
    }
  }

  /** A label matches when it is not empty and contains the search text, ignoring case. */
  predicate LabelMatches(searchText: string, labelText: string) {
    labelText != "" && Strings.Contains(Strings.LowerStr(labelText), Strings.LowerStr(searchText))
  }

  /** The results of one address or txid: the key itself when it contains the text, then its label. */
  function EntryHits(searchText: string, entry: (string, string), target: Target): seq<Item> {
    (if Strings.Contains(entry.0, searchText) then [Item(FormatResultText(searchText, entry.0), target, Some(entry.0), [])] else [])
    + (if LabelMatches(searchText, entry.1) then [Item(FormatResultText(searchText, entry.1), target, Some(entry.0), [])] else [])
  }

  function KeyedHits(searchText: string, entries: seq<(string, string)>, target: Target): seq<Item> {
    if entries == [] then []
    else
      var n := |entries| - 1;
      KeyedHits(searchText, entries[..n], target) + EntryHits(searchText, entries[n], target)
  }

  /** A matched output: under "Spent Outputs" keyed by its spending txid, else under "UTXOs" keyed by itself. */
  function TxoGroup(txo: Txo): Group {
    if txo.spentBy != "" then SpentGroup else UtxosGroup
  }

  function TxoHit(searchText: string, txo: Txo): Item {
    if txo.spentBy != "" then Item(FormatResultText(searchText, txo.outpoint), HistoryList, Some(txo.spentBy), [])
    else Item(FormatResultText(searchText, txo.outpoint), UtxoList, Some(txo.outpoint), [])
  }

  /** The hits of the outputs that belong to `group`. */
  function TxoHits(searchText: string, txos: seq<Txo>, group: Group): seq<Item> {
    if txos == [] then []
    else
      var n := |txos| - 1;
      TxoHits(searchText, txos[..n], group)
      + (if Strings.Contains(txos[n].outpoint, searchText) && TxoGroup(txos[n]) == group then [TxoHit(searchText, txos[n])] else [])
  }

  /** The output groups in the order of their first hit. */
  function TxoOrder(searchText: string, txos: seq<Txo>): (r: seq<Group>)
    ensures forall g :: g in r ==> g in {UtxosGroup, SpentGroup} && |TxoHits(searchText, txos, g)| > 0
    ensures Collections.NoDuplicates(r)
  {
    if txos == [] then []
    else
      var n := |txos| - 1;
      var before := TxoOrder(searchText, txos[..n]);
      before
      + (if Strings.Contains(txos[n].outpoint, searchText) && TxoGroup(txos[n]) !in before then [TxoGroup(txos[n])] else [])
  }

  /** The group nodes of a wallet, in the order they were attached to it. */
  function GroupOrder(searchText: string, w: WalletData): seq<Group> {
    (if |KeyedHits(searchText, w.addresses, AddressList)| > 0 then [AddressesGroup] else [])
    + (if |KeyedHits(searchText, w.txids, HistoryList)| > 0 then [TxidsGroup] else [])
    + TxoOrder(searchText, w.txos)
  }

  function GroupItem(searchText: string, w: WalletData, g: Group): Item {
    match g
    case AddressesGroup => Item(Bold("Addresses"), AddressesTab, None, KeyedHits(searchText, w.addresses, AddressList))
    case TxidsGroup => Item(Bold("Transaction Ids"), HistoryTab, None, KeyedHits(searchText, w.txids, HistoryList))
    case UtxosGroup => Item(Bold("UTXOs"), SendTab, None, TxoHits(searchText, w.txos, UtxosGroup))
    case SpentGroup => Item(Bold("Spent Outputs"), HistoryTab, None, TxoHits(searchText, w.txos, SpentGroup))
  }

  function GroupItems(searchText: string, w: WalletData, order: seq<Group>): (r: seq<Item>)
    ensures |r| == |order| && forall k :: 0 <= k < |order| ==> r[k] == GroupItem(searchText, w, order[k])
  {
    seq(|order|, k requires 0 <= k < |order| => GroupItem(searchText, w, order[k]))
  }

  /** A wallet's node, present only when something in it matched. */
  function WalletResults(searchText: string, w: WalletData): Option<Item> {
    var order := GroupOrder(searchText, w);
    if order == [] then None else Some(Item(Bold(w.id), WalletTab, None, GroupItems(searchText, w, order)))
  }

  /** The matched wallets' nodes, in the order the wallets are open. */
  function SearchResults(searchText: string, wallets: seq<WalletData>): seq<Item> {
    if wallets == [] then []
    else
      var n := |wallets| - 1;
      SearchResults(searchText, wallets[..n])
      + (match WalletResults(searchText, wallets[n]) case Some(item) => [item] case None => [])
  }

  /** The tree of `do_search`: a root whose children are the matched wallets. */
  function Search(searchText: string, wallets: seq<WalletData>): Item {
    Item("", NoTarget, None, SearchResults(Strings.Strip(searchText), wallets))
  }

  /** Every group node of a wallet that matched has a result under it. */
  lemma WalletHasNoEmptyGroup(searchText: string, w: WalletData)
    ensures forall g :: g in GroupItems(searchText, w, GroupOrder(searchText, w)) ==> |g.children| > 0
  {
    var order := GroupOrder(searchText, w);
    forall g | g in GroupItems(searchText, w, order)
      ensures |g.children| > 0
    {
      var k :| 0 <= k < |order| && g == GroupItem(searchText, w, order[k]);
      GroupInOrderHasHits(searchText, w, order[k]);
    }
  }

  /** A group is attached only once it has a result. */
  lemma GroupInOrderHasHits(searchText: string, w: WalletData, g: Group)
    requires g in GroupOrder(searchText, w)
    ensures |GroupItem(searchText, w, g).children| > 0
  {
    var addresses := if |KeyedHits(searchText, w.addresses, AddressList)| > 0 then [AddressesGroup] else [];
    var txids := if |KeyedHits(searchText, w.txids, HistoryList)| > 0 then [TxidsGroup] else [];
    assert g in addresses || g in txids || g in TxoOrder(searchText, w.txos);
  }

  /**
   * No empty branch is ever shown: every wallet under the root has a group, and
   * every group has a result.
   */
  lemma {:induction false} SearchHasNoEmptyBranch(searchText: string, wallets: seq<WalletData>)
    ensures forall w :: w in SearchResults(searchText, wallets) ==>
      |w.children| > 0 && forall g :: g in w.children ==> |g.children| > 0
  {
    if wallets != [] {
      var n := |wallets| - 1;
      SearchHasNoEmptyBranch(searchText, wallets[..n]);
      WalletHasNoEmptyGroup(searchText, wallets[n]);
    }
  }

  /** Every address result names an address of the wallet that matched by itself or by its label. */
  lemma {:induction false} KeyedHitsSound(searchText: string, entries: seq<(string, string)>, target: Target, hit: Item)
    requires hit in KeyedHits(searchText, entries, target)
    ensures hit.target == target && hit.children == [] && hit.key.Some?
    ensures exists e :: (e in entries && hit.key.value == e.0
      && (Strings.Contains(e.0, searchText) || LabelMatches(searchText, e.1)))
  {
    var n := |entries| - 1;
    if hit in KeyedHits(searchText, entries[..n], target) {
      KeyedHitsSound(searchText, entries[..n], target, hit);
      var e :| e in entries[..n] && hit.key.value == e.0 && (Strings.Contains(e.0, searchText) || LabelMatches(searchText, e.1));
      assert e in entries;
    } else {
      assert entries[n] in entries;
    }
  }

  /**
   * Every address that contains the search text appears as a result keyed by it, and so
   * does every address whose label matches, with the highlighted label as its text.
   */
  lemma {:induction false} KeyedHitsComplete(searchText: string, entries: seq<(string, string)>, target: Target, i: nat)
    requires i < |entries|
    ensures Strings.Contains(entries[i].0, searchText) ==>
      Item(FormatResultText(searchText, entries[i].0), target, Some(entries[i].0), []) in KeyedHits(searchText, entries, target)
    ensures LabelMatches(searchText, entries[i].1) ==>
      Item(FormatResultText(searchText, entries[i].1), target, Some(entries[i].0), []) in KeyedHits(searchText, entries, target)
  {
    var n := |entries| - 1;
    if i < n {
      assert entries[..n][i] == entries[i];
      KeyedHitsComplete(searchText, entries[..n], target, i);
    }
  }

  /**
   * One pass of `do_search` over a wallet's addresses or txids: each entry whose key
   * contains the text, then each whose label does, adds a result; the group is
   * attached to the wallet at its first result.
   */
  method KeyedSearch(searchText: string, entries: seq<(string, string)>, target: Target)
    returns (hits: seq<Item>, attached: bool)
    ensures hits == KeyedHits(searchText, entries, target)
    ensures attached <==> |hits| > 0
  {
    hits := [];
    attached := false;
    for i := 0 to |entries|
      invariant hits == KeyedHits(searchText, entries[..i], target)
      invariant attached <==> |hits| > 0
    {
      assert entries[..i + 1][..i] == entries[..i];
      var entryHits := EntrySearch(searchText, entries[i], target);
      hits := hits + entryHits;
      attached := attached || |entryHits| > 0;
    }
    assert entries[..|entries|] == entries;
  }

  /** The body of that pass for one entry: the key when it contains the text, then the label when it does. */
  method EntrySearch(searchText: string, entry: (string, string), target: Target) returns (hits: seq<Item>)
    ensures hits == EntryHits(searchText, entry, target)
  {
    var key := entry.0;
    var labelText := entry.1;
    hits := [];
    if Strings.Contains(key, searchText) {
      hits := hits + [Item(FormatResultText(searchText, key), target, Some(key), [])];
    }
    if labelText != "" && Strings.Contains(Strings.LowerStr(labelText), Strings.LowerStr(searchText)) {
      hits := hits + [Item(FormatResultText(searchText, labelText), target, Some(key), [])];
    }
  }

  /**
   * The pass over a wallet's outputs: a matching spent output goes under "Spent
   * Outputs", an unspent one under "UTXOs", and each group is attached at its first result.
   */
  method TxoSearch(searchText: string, txos: seq<Txo>)
    returns (utxoHits: seq<Item>, spentHits: seq<Item>, order: seq<Group>)
    ensures utxoHits == TxoHits(searchText, txos, UtxosGroup)
    ensures spentHits == TxoHits(searchText, txos, SpentGroup)
    ensures order == TxoOrder(searchText, txos)
  {
    utxoHits, spentHits, order := [], [], [];
    for i := 0 to |txos|
      invariant utxoHits == TxoHits(searchText, txos[..i], UtxosGroup)
      invariant spentHits == TxoHits(searchText, txos[..i], SpentGroup)
      invariant order == TxoOrder(searchText, txos[..i])
    {
      var txo := txos[i];
      assert txos[..i + 1][..i] == txos[..i];
      if Strings.Contains(txo.outpoint, searchText) {
        if txo.spentBy != "" {
          spentHits := spentHits + [Item(FormatResultText(searchText, txo.outpoint), HistoryList, Some(txo.spentBy), [])];
          if SpentGroup !in order {
            order := order + [SpentGroup];
          }
        } else {
          utxoHits := utxoHits + [Item(FormatResultText(searchText, txo.outpoint), UtxoList, Some(txo.outpoint), [])];
          if UtxosGroup !in order {
            order := order + [UtxosGroup];
          }
        }
      }
    }
    assert txos[..|txos|] == txos;
  }

  /** The node of one wallet: its groups in the order they were attached, or none without a match. */
  method WalletSearch(searchText: string, w: WalletData) returns (r: Option<Item>)
    ensures r == WalletResults(searchText, w)
  {
    var addressHits, addressesAttached := KeyedSearch(searchText, w.addresses, AddressList);
    var txidHits, txidsAttached := KeyedSearch(searchText, w.txids, HistoryList);
    var utxoHits, spentHits, txoOrder := TxoSearch(searchText, w.txos);
    var order := (if addressesAttached then [AddressesGroup] else [])
      + (if txidsAttached then [TxidsGroup] else []) + txoOrder;
    assert order == GroupOrder(searchText, w);
    if order == [] {
      return None;
    }
    var groupItems := BuildGroupItems(searchText, w, order, addressHits, txidHits, utxoHits, spentHits);
    r := Some(Item(Bold(w.id), WalletTab, None, groupItems));
  }

  /** The group nodes, one per attached group, each holding that group's results. */
  method BuildGroupItems(searchText: string, w: WalletData, order: seq<Group>,
                         addressHits: seq<Item>, txidHits: seq<Item>, utxoHits: seq<Item>, spentHits: seq<Item>)
    returns (groupItems: seq<Item>)
    requires addressHits == KeyedHits(searchText, w.addresses, AddressList)
    requires txidHits == KeyedHits(searchText, w.txids, HistoryList)
    requires utxoHits == TxoHits(searchText, w.txos, UtxosGroup)
    requires spentHits == TxoHits(searchText, w.txos, SpentGroup)
    ensures groupItems == GroupItems(searchText, w, order)
  {
    groupItems := [];
    for k := 0 to |order|
      invariant |groupItems| == k
      invariant forall j :: 0 <= j < k ==> groupItems[j] == GroupItem(searchText, w, order[j])
    {
      var item := match order[k]
        case AddressesGroup => Item(Bold("Addresses"), AddressesTab, None, addressHits)
        case TxidsGroup => Item(Bold("Transaction Ids"), HistoryTab, None, txidHits)
        case UtxosGroup => Item(Bold("UTXOs"), SendTab, None, utxoHits)
        case SpentGroup => Item(Bold("Spent Outputs"), HistoryTab, None, spentHits);
      groupItems := groupItems + [item];
    }
  }

  /** `SearchWallets.do_search`: the search text is stripped, then every open wallet is searched in turn. */
  method DoSearch(searchText: string, wallets: seq<WalletData>) returns (root: Item)
    ensures root == Search(searchText, wallets)
  {
    var text := Strings.Strip(searchText);
    var children: seq<Item> := [];
    for i := 0 to |wallets|
      invariant children == SearchResults(text, wallets[..i])
    {
      assert wallets[..i + 1][..i] == wallets[..i];
      var walletItem := WalletSearch(text, wallets[i]);
      if walletItem.Some? {
        children := children + [walletItem.value];
      }
    }
    assert wallets[..|wallets|] == wallets;
    root := Item("", NoTarget, None, children);
  }

  // ----- clicking a result -----

  /**
   * `search_result_on_click`: the parent is handled first, recursively, so a result
   * whose ancestor chain is `chain` (the item first, the root last) handles the
   * root first and the item itself last.
   */
  method SearchResultOnClick(chain: seq<Item>) returns (handled: seq<Item>)
    requires |chain| > 0
    ensures handled == Collections.Reverse(chain)
    ensures handled[|handled| - 1] == chain[0] && handled[0] == chain[|chain| - 1]
    decreases |chain|
  {
    handled := [];
    if |chain| > 1 {
      handled := SearchResultOnClick(chain[1..]);
    }
    handled := handled + [chain[0]];
  }
}
