/** The store and index objects behind the node, with their tables held as maps. */
module BlockStore {
  import opened Bytes
  import opened Ledger
  import opened Utxo
  import opened Consensus
  import opened History
  import opened ForkStore
  import opened Node

  class SQLiteForkStore {
    const rules: Rules
    var table: Store

    constructor (r: Rules, initial: Store)
      ensures rules == r && table == initial
    {
      rules := r;
      table := initial;
    }

    method GetBlock(h: Hash) returns (res: Result<Stored>)
      ensures res.Ok? <==> h in table
      ensures res.Ok? ==> res.value == table[h]
    {
      if h !in table {
        return Err("unknown block");
      }
      return Ok(table[h]);
    }

    /** Inserts a block with its cumulative work; a known hash is answered from the table. */
    method PutBlock(b: Block) returns (res: Result<Stored>)
      modifies this
      ensures res.Ok? <==>
              rules.blockHash(b) in old(table) ||
              (if b.height == 0 then b.previousHash == ZERO_HASH
               else b.previousHash in old(table) && b.height == old(table)[b.previousHash].block.height + 1)
      ensures res.Err? || rules.blockHash(b) in old(table) ==> table == old(table)
      ensures res.Ok? ==> rules.blockHash(b) in table && res.value == table[rules.blockHash(b)]
      ensures res.Ok? && b.previousHash in old(table) && b.height != 0 ==> table == Put(rules, old(table), b)
      ensures res.Ok? && b.height == 0 && rules.blockHash(b) !in old(table) ==>
                table == old(table)[rules.blockHash(b) := Stored(b, Work(b))]
    {
      var h := rules.blockHash(b);
      if h in table {
        return Ok(table[h]);
      }
      var work: nat;
      if b.height == 0 {
        if b.previousHash != ZERO_HASH {
          return Err("genesis block previous hash is invalid");
        }
        work := Work(b);
      } else {
        var parent := GetBlock(b.previousHash);
        if parent.Err? {
          return Err(parent.error);
        }
        if b.height != parent.value.block.height + 1 {
          return Err("block height does not extend parent");
        }
        work := parent.value.work + Work(b);
      }
      table := table[h := Stored(b, work)];
      return Ok(Stored(b, work));
    }

    /** First row by work descending, height descending, hash ascending. */
    method BestTip() returns (tip: Option<Hash>)
      ensures tip == if table.Keys == {} then None else Some(Tip(table))
    {
      if table.Keys == {} {
        return None;
      }
      var best :| best in table.Keys;
      var rest := table.Keys - {best};
      while rest != {}
        invariant rest <= table.Keys && best in table && best !in rest
        invariant forall k | k in table && k !in rest && k != best :: Better(table, best, k)
        decreases rest
      {
        var h :| h in rest;
        BetterTotal(table, h, best);
        if Better(table, h, best) {
          forall k | k in table && k !in rest && k != best
            ensures Better(table, h, k)
          {
            BetterTransitive(table, h, best, k);
          }
          best := h;
        }
        rest := rest - {h};
      }
      TipIsUnique(table, best, Tip(table));
      return Some(best);
    }

    /** Walks from `h` down to height zero and reverses the walk. */
    method ChainToTip(h: Hash) returns (res: Result<seq<Block>>)
      requires Linked(rules, table)
      ensures res.Ok? <==> h in table
      ensures res.Ok? ==> res.value == Branch(rules, table, h)
    {
      hide Branch, Linked, LinkedAt, Reverse;
      var current := GetBlock(h);
      if current.Err? {
        return Err(current.error);
      }
      var at, walk := h, [];
      var stored := current.value;
      ReverseNothing();
      BranchUnwinds(rules, table, at);
      assert Branch(rules, table, h) + [] == Branch(rules, table, h);
      while stored.block.height != 0
        invariant at in table && stored == table[at] && stored.block.height >= 0
        invariant Branch(rules, table, at) + Reverse(walk) == Branch(rules, table, h)
        decreases stored.block.height
      {
        BranchUnwinds(rules, table, at);
        walk := walk + [stored.block];
        ReverseSnoc(walk);
        assert walk[..|walk| - 1] + [stored.block] == walk;
        at := stored.block.previousHash;
        var below := GetBlock(at);
        stored := below.value;
        BranchUnwinds(rules, table, at);
      }
      BranchUnwinds(rules, table, at);
      walk := walk + [stored.block];
      ReverseSnoc(walk);
      return Ok(Reverse(walk));
    }
  }

  /** The last step of a branch. */
  lemma BranchUnwinds(r: Rules, s: Store, h: Hash)
    requires Linked(r, s) && h in s
    ensures var b := s[h].block;
            b.height >= 0 &&
            (b.height == 0 ==> Branch(r, s, h) == [b]) &&
            (b.height > 0 ==> b.previousHash in s && s[b.previousHash].block.height == b.height - 1 &&
                              Branch(r, s, h) == Branch(r, s, b.previousHash) + [b])
  {
    assert LinkedAt(r, s, h);
  }

  lemma ReverseNothing()
    ensures Reverse([]) == []
  {
  }

  function Reverse(s: seq<Block>): (t: seq<Block>)
    ensures |t| == |s|
  {
    seq(|s|, i requires 0 <= i < |s| => s[|s| - 1 - i])
  }

  lemma ReverseSnoc(s: seq<Block>)
    requires s != []
    ensures Reverse(s) == [s[|s| - 1]] + Reverse(s[..|s| - 1])
  {
  }

  /** One row more in the spend table. */
  lemma TableSnoc(rows: seq<Spend>, i: nat)
    requires i < |rows|
    ensures TableOf(rows[..i + 1]) == TableOf(rows[..i])[rows[i].outpoint := (rows[i].spender, rows[i].input)]
    ensures Keys(rows[..i + 1]) == Keys(rows[..i]) + {rows[i].outpoint}
    ensures DistinctKeys(rows[..i + 1]) <==> DistinctKeys(rows[..i]) && rows[i].outpoint !in Keys(rows[..i])
  {
    var a, b := rows[..i], rows[..i + 1];
    assert b[..i] == a && b == a + [rows[i]];
    KeysAppend(a, [rows[i]]);
    assert Keys([rows[i]]) == {rows[i].outpoint} by {
      assert [rows[i]][0] == rows[i];
    }
    if DistinctKeys(b) {
      assert forall k | 0 <= k < i :: a[k] == b[k];
      assert forall k | 0 <= k < i :: b[k].outpoint != b[i].outpoint;
    }
  }

  lemma TableEmpty(rows: seq<Spend>)
    ensures TableOf(rows[..0]) == map[] && Keys(rows[..0]) == {} && DistinctKeys(rows[..0])
  {
  }

  lemma DistinctPrefix(rows: seq<Spend>, n: nat)
    requires DistinctKeys(rows) && n <= |rows|
    ensures DistinctKeys(rows[..n])
  {
  }

  class SQLiteUTXOIndex {
    const rules: Rules
    var tables: Index

    constructor (r: Rules, initial: Index)
      ensures rules == r && tables == initial
    {
      rules := r;
      tables := initial;
    }

    method SaveTipSnapshot(tip: Hash, utxos: UtxoMap)
      modifies this
      ensures tables == old(tables).(snapshots := old(tables).snapshots[tip := utxos])
    {
      tables := tables.(snapshots := tables.snapshots[tip := utxos]);
    }

    method SaveSnapshot(tip: Hash, utxos: UtxoMap)
      modifies this
      ensures tables == Index(old(tables).snapshots[tip := utxos], old(tables).spends, tip, utxos)
    {
      tables := Index(tables.snapshots[tip := utxos], tables.spends, tip, utxos);
    }

    method ListBlockSpends(txs: seq<Tx>) returns (rows: seq<Spend>)
      ensures rows == Rows(rules, txs)
    {
      hide Keys;
      rows := [];
      for j := 0 to |txs|
        invariant rows == Rows(rules, txs[..j])
      {
        var tx := txs[j];
        RowsSnoc(rules, txs[..j], tx);
        assert txs[..j] + [tx] == txs[..j + 1];
        if !IsCoinbase(tx) {
          rows := rows + seq(|tx.inputs|, k requires 0 <= k < |tx.inputs| => Spend(tx.inputs[k].previous, rules.txid(tx), k));
        }
      }
      assert txs[..|txs|] == txs;
    }

    /** Lists the spends of a chain in block order, skipping coinbases. */
    method ListSpends(blocks: seq<Block>) returns (rows: seq<Spend>)
      ensures rows == Rows(rules, AllTxs(blocks))
    {
      hide Rows;
      NoRows(rules);
      rows := [];
      for i := 0 to |blocks|
        invariant rows == Rows(rules, AllTxs(blocks[..i]))
      {
        var more := ListBlockSpends(blocks[i].transactions);
        RowsAppend(rules, AllTxs(blocks[..i]), blocks[i].transactions);
        assert blocks[..i + 1][..i] == blocks[..i];
        rows := rows + more;
      }
      assert blocks[..|blocks|] == blocks;
    }

    /** Replaces the spends of a tip in one transaction; a repeated key rolls it back. */
    method SaveTipSpends(tip: Hash, blocks: seq<Block>) returns (res: Result<()>)
      modifies this
      ensures res.Ok? <==> DistinctKeys(Rows(rules, AllTxs(blocks)))
      ensures res.Ok? ==> tables == old(tables).(spends := old(tables).spends[tip := TableOf(Rows(rules, AllTxs(blocks)))])
      ensures res.Err? ==> tables == old(tables)
    {
      hide Rows, AllTxs, TableOf, Keys, DistinctKeys;
      var rows := ListSpends(blocks);
      var inserted: SpendTable := map[];
      TableEmpty(rows);
      for i := 0 to |rows|
        invariant inserted == TableOf(rows[..i]) && inserted.Keys == Keys(rows[..i]) && DistinctKeys(rows[..i])
        invariant tables == old(tables)
      {
        TableSnoc(rows, i);
        if rows[i].outpoint in inserted {
          if DistinctKeys(rows) {
            DistinctPrefix(rows, i + 1);
          }
          return Err("UNIQUE constraint failed");
        }
        inserted := inserted[rows[i].outpoint := (rows[i].spender, rows[i].input)];
      }
      assert rows[..|rows|] == rows;
      tables := tables.(spends := tables.spends[tip := inserted]);
      return Ok(());
    }
  }
}
