/**
 The canonical chain as the indexer sees it, and the chunked log reader over it
 (service/src/indexer/viem-event-source.ts).
 */
module EventSource {
  import opened Prelude
  import opened Sorting
  import opened ChainEvents

  datatype Config = Config(
    chainId: nat,
    deploymentBlock: nat,
    contracts: seq<nat>,
    finalityConfirmations: nat,
    hasProcessor: bool,
    hasAutomation: bool)

  type Chain = seq<Block>

  function HashAt(chain: Chain, height: nat): Hash
    requires height < |chain|
  {
    Link(if height == 0 then Root else HashAt(chain, height - 1), chain[height])
  }

  /** The blocks that a hash commits to. */
  function ChainOf(h: Hash): Chain
  {
    match h
    case Root => []
    case Link(parent, block) => ChainOf(parent) + [block]
  }

  lemma {:induction false} ChainOfHash(chain: Chain, height: nat)
    requires height < |chain|
    ensures ChainOf(HashAt(chain, height)) == chain[..height + 1]
  {
    if height > 0 {
      ChainOfHash(chain, height - 1);
      assert chain[..height + 1] == chain[..height] + [chain[height]];
    }
  }

  lemma {:induction false} HashOfPrefix(c: Chain, d: Chain, height: nat)
    requires height < |c| && height < |d| && c[..height + 1] == d[..height + 1]
    ensures HashAt(c, height) == HashAt(d, height)
  {
    assert c[height] == c[..height + 1][height] == d[height];
    if height > 0 {
      assert c[..height] == c[..height + 1][..height] == d[..height];
      HashOfPrefix(c, d, height - 1);
    }
  }

  /** Equal hashes at a height mean equal chains, and equal hashes, up to that height. */
  lemma {:induction false} SameHashSamePrefix(c: Chain, d: Chain, height: nat)
    requires height < |c| && height < |d| && HashAt(c, height) == HashAt(d, height)
    ensures c[..height + 1] == d[..height + 1]
    ensures forall b: nat :: b <= height ==> HashAt(c, b) == HashAt(d, b) && c[b] == d[b]
  {
    ChainOfHash(c, height);
    ChainOfHash(d, height);
    forall b: nat | b <= height ensures HashAt(c, b) == HashAt(d, b) && c[b] == d[b] {
      assert c[..b + 1] == c[..height + 1][..b + 1] == d[..b + 1];
      assert c[b] == c[..b + 1][b] && d[b] == d[..b + 1][b];
      HashOfPrefix(c, d, b);
    }
  }

  // ----- canonical events -----

  /** `e` is the decoded form of a log of an indexed contract on this chain. */
  ghost predicate OnChain(cfg: Config, chain: Chain, e: Event)
  {
    && e.chainId == cfg.chainId
    && e.blockNumber < |chain|
    && e.log in chain[e.blockNumber].logs
    && e.log.contract.value in cfg.contracts
    && e.log.payload != Undecodable
    && !e.removed
    && e.blockHash == Some(HashAt(chain, e.blockNumber))
  }

  /** Log indices grow within a block and a later transaction has the later logs. */
  ghost predicate WellFormedChain(chain: Chain)
  {
    forall b, i, j :: 0 <= b < |chain| && 0 <= i < j < |chain[b].logs| ==>
      LogPrecedes(chain[b].logs[i], chain[b].logs[j])
  }

  ghost predicate LogPrecedes(l: Log, r: Log)
  {
    && l.logIndex < r.logIndex
    && (l.txIndex.Some? && r.txIndex.Some? ==> l.txIndex.value <= r.txIndex.value)
  }

  /** Events read off one chain carry one event per key and are totally ordered by the comparator. */
  lemma {:induction false} ChainEventsAreOrderly(cfg: Config, chain: Chain, xs: seq<Event>)
    requires WellFormedChain(chain)
    requires forall e :: e in xs ==> OnChain(cfg, chain, e)
    ensures LiveAndFunctional(xs) && Acyclic(xs)
  {
    forall a, b | a in xs && b in xs && a.blockNumber == b.blockNumber && a.log != b.log
      ensures LogPrecedes(a.log, b.log) || LogPrecedes(b.log, a.log)
    {
      var logs := chain[a.blockNumber].logs;
      assert OnChain(cfg, chain, a) && OnChain(cfg, chain, b);
      var i :| 0 <= i < |logs| && logs[i] == a.log;
      var j :| 0 <= j < |logs| && logs[j] == b.log;
      assert i < j ==> LogPrecedes(logs[i], logs[j]);
      assert j < i ==> LogPrecedes(logs[j], logs[i]);
    }
    TransactionOrderIsAcyclic(xs);
  }

  /** Chains that agree on a block agree on the events of that block. */
  lemma OnChainTransfers(cfg: Config, c: Chain, d: Chain, height: nat, e: Event)
    requires height < |c| && height < |d| && HashAt(c, height) == HashAt(d, height)
    requires e.blockNumber <= height
    ensures OnChain(cfg, c, e) <==> OnChain(cfg, d, e)
  {
    SameHashSamePrefix(c, d, height);
  }

  // ----- reading logs -----

  function EventOf(cfg: Config, chain: Chain, b: nat, log: Log): Event
    requires b < |chain|
  {
    Event(cfg.chainId, b, log, false, Some(HashAt(chain, b)))
  }

  function LogsOfBlock(cfg: Config, chain: Chain, contract: nat, b: nat, n: nat): seq<Event>
    requires b < |chain| && n <= |chain[b].logs|
  {
    if n == 0 then []
    else LogsOfBlock(cfg, chain, contract, b, n - 1) +
         if chain[b].logs[n - 1].contract.value == contract then [EventOf(cfg, chain, b, chain[b].logs[n - 1])] else []
  }

  function LogsAt(cfg: Config, chain: Chain, contract: nat, b: nat): seq<Event>
  {
    if b < |chain| then LogsOfBlock(cfg, chain, contract, b, |chain[b].logs|) else []
  }

  /** What the node answers for the blocks `from` up to but not including `until`. */
  function LogsBetween(cfg: Config, chain: Chain, contract: nat, from: nat, until: nat): seq<Event>
  {
    if until <= from then []
    else LogsBetween(cfg, chain, contract, from, until - 1) + LogsAt(cfg, chain, contract, until - 1)
  }

  predicate Decodable(e: Event) { e.log.payload != Undecodable }

  predicate NotDecodable(e: Event) { e.log.payload == Undecodable }

  function ReadContracts(cfg: Config, chain: Chain, n: nat, from: nat, to: nat): seq<Event>
    requires n <= |cfg.contracts|
  {
    if n == 0 then []
    else ReadContracts(cfg, chain, n - 1, from, to) +
         Filter(LogsBetween(cfg, chain, cfg.contracts[n - 1], from, to + 1), Decodable)
  }

  /** One unchunked read of every indexed contract. */
  function ReadEvents(cfg: Config, chain: Chain, from: nat, to: nat): seq<Event>
  {
    ReadContracts(cfg, chain, |cfg.contracts|, from, to)
  }

  lemma {:induction false} LogsOfBlockMembers(cfg: Config, chain: Chain, contract: nat, b: nat, n: nat)
    requires b < |chain| && n <= |chain[b].logs|
    ensures forall e :: e in LogsOfBlock(cfg, chain, contract, b, n) <==>
              e.log in chain[b].logs[..n] && e.log.contract.value == contract && e == EventOf(cfg, chain, b, e.log)
  {
    if n > 0 {
      LogsOfBlockMembers(cfg, chain, contract, b, n - 1);
      assert chain[b].logs[..n] == chain[b].logs[..n - 1] + [chain[b].logs[n - 1]];
    }
  }

  lemma {:induction false} LogsBetweenMembers(cfg: Config, chain: Chain, contract: nat, from: nat, until: nat)
    ensures forall e :: e in LogsBetween(cfg, chain, contract, from, until) <==>
              from <= e.blockNumber < until && e.blockNumber < |chain| && e.log in chain[e.blockNumber].logs &&
              e.log.contract.value == contract && e == EventOf(cfg, chain, e.blockNumber, e.log)
  {
    if until > from {
      LogsBetweenMembers(cfg, chain, contract, from, until - 1);
      LogsAtMembers(cfg, chain, contract, until - 1);
    }
  }

  lemma LogsAtMembers(cfg: Config, chain: Chain, contract: nat, b: nat)
    ensures forall e :: e in LogsAt(cfg, chain, contract, b) <==>
              e.blockNumber == b && b < |chain| && e.log in chain[b].logs &&
              e.log.contract.value == contract && e == EventOf(cfg, chain, b, e.log)
  {
    if b < |chain| {
      var n := |chain[b].logs|;
      LogsOfBlockMembers(cfg, chain, contract, b, n);
      assert chain[b].logs[..n] == chain[b].logs;
    }
  }

  lemma {:induction false} ReadContractsMembers(cfg: Config, chain: Chain, n: nat, from: nat, to: nat)
    requires n <= |cfg.contracts|
    ensures forall e :: e in ReadContracts(cfg, chain, n, from, to) <==>
              from <= e.blockNumber <= to && e.blockNumber < |chain| && e.log in chain[e.blockNumber].logs &&
              e.log.contract.value in cfg.contracts[..n] && Decodable(e) && e == EventOf(cfg, chain, e.blockNumber, e.log)
  {
    if n > 0 {
      ReadContractsMembers(cfg, chain, n - 1, from, to);
      ContractMembers(cfg, chain, cfg.contracts[n - 1], from, to);
      assert cfg.contracts[..n] == cfg.contracts[..n - 1] + [cfg.contracts[n - 1]];
    }
  }

  lemma ContractMembers(cfg: Config, chain: Chain, contract: nat, from: nat, to: nat)
    ensures forall e :: e in Filter(LogsBetween(cfg, chain, contract, from, to + 1), Decodable) <==>
              from <= e.blockNumber <= to && e.blockNumber < |chain| && e.log in chain[e.blockNumber].logs &&
              e.log.contract.value == contract && Decodable(e) && e == EventOf(cfg, chain, e.blockNumber, e.log)
  {
    LogsBetweenMembers(cfg, chain, contract, from, to + 1);
    FilterMembers(LogsBetween(cfg, chain, contract, from, to + 1), Decodable);
  }

  /** A read returns exactly the canonical events of its range. */
  lemma ReadEventsMembers(cfg: Config, chain: Chain, from: nat, to: nat)
    ensures forall e :: e in ReadEvents(cfg, chain, from, to) <==> OnChain(cfg, chain, e) && from <= e.blockNumber <= to
  {
    ReadContractsMembers(cfg, chain, |cfg.contracts|, from, to);
    assert cfg.contracts[..|cfg.contracts|] == cfg.contracts;
  }

  lemma {:induction false} LogsBetweenSplits(cfg: Config, chain: Chain, contract: nat, from: nat, mid: nat, until: nat)
    requires from <= mid <= until
    ensures LogsBetween(cfg, chain, contract, from, until)
         == LogsBetween(cfg, chain, contract, from, mid) + LogsBetween(cfg, chain, contract, mid, until)
  {
    var left := LogsBetween(cfg, chain, contract, from, mid);
    if mid == until {
      assert LogsBetween(cfg, chain, contract, mid, until) == [];
      assert left + [] == left;
    } else {
      LogsBetweenSplits(cfg, chain, contract, from, mid, until - 1);
      Associates(left, LogsBetween(cfg, chain, contract, mid, until - 1), LogsAt(cfg, chain, contract, until - 1));
    }
  }

  lemma Associates(a: seq<Event>, b: seq<Event>, c: seq<Event>)
    ensures (a + b) + c == a + (b + c)
  {
  }

  // ----- block ranges -----

  datatype BlockRange = BlockRange(fromBlock: nat, toBlock: nat)

  /** Consecutive full spans from `from` on, the last one cut off at `to`. */
  ghost predicate Tiles(ranges: seq<BlockRange>, from: nat, to: nat, maxSpan: nat)
  {
    && (|ranges| == 0 <==> to < from)
    && (|ranges| > 0 ==> ranges[0].fromBlock == from && ranges[|ranges| - 1].toBlock == to)
    && (forall i :: 0 <= i < |ranges| ==> 1 <= ranges[i].toBlock - ranges[i].fromBlock + 1 <= maxSpan)
    && (forall i :: 0 <= i < |ranges| - 1 ==>
          ranges[i].toBlock - ranges[i].fromBlock + 1 == maxSpan && ranges[i + 1].fromBlock == ranges[i].toBlock + 1)
  }

  method BlockRanges(fromBlock: nat, toBlock: nat, maxSpan: nat) returns (ranges: seq<BlockRange>)
    requires maxSpan >= 1
    ensures Tiles(ranges, fromBlock, toBlock, maxSpan)
  {
    ranges := [];
    var start := fromBlock;
    while start <= toBlock
      invariant start >= fromBlock
      invariant forall i :: 0 <= i < |ranges| - 1 ==>
        ranges[i].toBlock - ranges[i].fromBlock + 1 == maxSpan && ranges[i + 1].fromBlock == ranges[i].toBlock + 1
      invariant forall i :: 0 <= i < |ranges| ==> 1 <= ranges[i].toBlock - ranges[i].fromBlock + 1 <= maxSpan
      invariant |ranges| > 0 ==> ranges[0].fromBlock == fromBlock && fromBlock <= toBlock
      invariant |ranges| > 0 ==> ranges[|ranges| - 1].fromBlock == start - maxSpan
      invariant |ranges| > 0 ==> ranges[|ranges| - 1].toBlock == Min(start - 1, toBlock)
      invariant |ranges| == 0 ==> start == fromBlock
      decreases toBlock + 1 - start
    {
      var end := if start + maxSpan - 1 < toBlock then start + maxSpan - 1 else toBlock;
      ranges := ranges + [BlockRange(start, end)];
      start := start + maxSpan;
    }
  }

  /** Every block of the interval lies in exactly one of the ranges, and no other block in any. */
  lemma RangesCoverOnce(ranges: seq<BlockRange>, from: nat, to: nat, maxSpan: nat, b: nat)
    requires Tiles(ranges, from, to, maxSpan)
    ensures from <= b <= to <==> exists i :: 0 <= i < |ranges| && ranges[i].fromBlock <= b <= ranges[i].toBlock
    ensures forall i, j :: 0 <= i < j < |ranges| ==> ranges[i].toBlock < ranges[j].fromBlock
  {
    forall j | 0 <= j < |ranges| ensures forall i :: 0 <= i < j ==> ranges[i].toBlock < ranges[j].fromBlock {
      RangesAscend(ranges, from, to, maxSpan, j);
    }
    if from <= b <= to {
      FindRange(ranges, from, to, maxSpan, b, |ranges| - 1);
    }
    if i :| 0 <= i < |ranges| && ranges[i].fromBlock <= b <= ranges[i].toBlock {
      RangesAscend(ranges, from, to, maxSpan, i);
      assert i < |ranges| - 1 ==> ranges[i].toBlock < ranges[|ranges| - 1].fromBlock;
    }
  }

  lemma {:induction false} RangesAscend(ranges: seq<BlockRange>, from: nat, to: nat, maxSpan: nat, j: nat)
    requires Tiles(ranges, from, to, maxSpan) && j < |ranges|
    ensures ranges[j].fromBlock >= from
    ensures forall i :: 0 <= i < j ==> ranges[i].toBlock < ranges[j].fromBlock
  {
    if j > 0 { RangesAscend(ranges, from, to, maxSpan, j - 1); }
  }

  lemma {:induction false} FindRange(ranges: seq<BlockRange>, from: nat, to: nat, maxSpan: nat, b: nat, k: nat)
    requires Tiles(ranges, from, to, maxSpan) && k < |ranges| && from <= b <= ranges[k].toBlock
    ensures exists i :: 0 <= i < |ranges| && ranges[i].fromBlock <= b <= ranges[i].toBlock
  {
    if b < ranges[k].fromBlock { FindRange(ranges, from, to, maxSpan, b, k - 1); }
  }

  // ----- the reader -----

  const MAX_GET_LOGS_BLOCK_SPAN: nat := 9999

  function FinalizedBlock(latestBlock: nat, confirmations: nat): nat
  {
    if latestBlock <= confirmations then 0 else latestBlock - confirmations
  }

  function UndecodableIn(cfg: Config, chain: Chain, n: nat, from: nat, to: nat): nat
    requires n <= |cfg.contracts|
  {
    if n == 0 then 0
    else UndecodableIn(cfg, chain, n - 1, from, to) +
         |Filter(LogsBetween(cfg, chain, cfg.contracts[n - 1], from, to + 1), NotDecodable)|
  }

  lemma EmptyReads(cfg: Config, chain: Chain, n: nat, from: nat, to: nat)
    requires n <= |cfg.contracts| && to < from
    ensures ReadContracts(cfg, chain, n, from, to) == [] && UndecodableIn(cfg, chain, n, from, to) == 0
  {
  }

  lemma ReadOneMore(cfg: Config, chain: Chain, c: nat, from: nat, to: nat, logs: seq<Event>)
    requires c < |cfg.contracts| && logs == LogsBetween(cfg, chain, cfg.contracts[c], from, to + 1)
    ensures ReadContracts(cfg, chain, c + 1, from, to) == ReadContracts(cfg, chain, c, from, to) + Filter(logs, Decodable)
    ensures UndecodableIn(cfg, chain, c + 1, from, to) == UndecodableIn(cfg, chain, c, from, to) + |Filter(logs, NotDecodable)|
  {
  }

  /** Where the reader stands after the first i ranges. */
  function RangeStart(ranges: seq<BlockRange>, toBlock: nat, i: nat): nat
  {
    if i < |ranges| then ranges[i].fromBlock else toBlock + 1
  }

  class ViemChainEventSource {
    const cfg: Config
    var unresolvedLogCount: nat

    constructor (cfg: Config)
      ensures this.cfg == cfg && unresolvedLogCount == 0
    {
      this.cfg := cfg;
      unresolvedLogCount := 0;
    }

    method ConsumeUnresolvedLogCount() returns (count: nat)
      modifies this
      ensures count == old(unresolvedLogCount) && unresolvedLogCount == 0
    {
      count := unresolvedLogCount;
      unresolvedLogCount := 0;
    }

    /** The chunked read returns what one unchunked read would, and counts the logs it had to skip. */
    method Read(chain: Chain, fromBlock: nat, toBlock: nat) returns (events: seq<Event>)
      modifies this
      ensures events == ReadEvents(cfg, chain, fromBlock, toBlock)
      ensures unresolvedLogCount == old(unresolvedLogCount) + UndecodableIn(cfg, chain, |cfg.contracts|, fromBlock, toBlock)
    {
      if |cfg.contracts| == 0 || toBlock < fromBlock {
        if |cfg.contracts| > 0 { EmptyReads(cfg, chain, |cfg.contracts|, fromBlock, toBlock); }
        return [];
      }
      events := ReadAllContracts(chain, fromBlock, toBlock);
    }

    method ReadAllContracts(chain: Chain, fromBlock: nat, toBlock: nat) returns (events: seq<Event>)
      requires fromBlock <= toBlock
      modifies this
      ensures events == ReadContracts(cfg, chain, |cfg.contracts|, fromBlock, toBlock)
      ensures unresolvedLogCount == old(unresolvedLogCount) + UndecodableIn(cfg, chain, |cfg.contracts|, fromBlock, toBlock)
    {
      events := [];
      var c := 0;
      while c < |cfg.contracts|
        invariant 0 <= c <= |cfg.contracts|
        invariant events == ReadContracts(cfg, chain, c, fromBlock, toBlock)
        invariant unresolvedLogCount == old(unresolvedLogCount) + UndecodableIn(cfg, chain, c, fromBlock, toBlock)
      {
        var decoded := ReadContract(chain, c, fromBlock, toBlock);
        events := events + decoded;
        c := c + 1;
      }
    }

    method ReadContract(chain: Chain, c: nat, fromBlock: nat, toBlock: nat) returns (decoded: seq<Event>)
      requires c < |cfg.contracts| && fromBlock <= toBlock
      modifies this
      ensures ReadContracts(cfg, chain, c + 1, fromBlock, toBlock) == ReadContracts(cfg, chain, c, fromBlock, toBlock) + decoded
      ensures unresolvedLogCount - old(unresolvedLogCount) ==
        UndecodableIn(cfg, chain, c + 1, fromBlock, toBlock) - UndecodableIn(cfg, chain, c, fromBlock, toBlock)
    {
      var logs := ReadChunks(chain, cfg.contracts[c], fromBlock, toBlock);
      decoded := Decode(logs);
      ReadOneMore(cfg, chain, c, fromBlock, toBlock, logs);
    }

    method ReadChunks(chain: Chain, contract: nat, fromBlock: nat, toBlock: nat) returns (logs: seq<Event>)
      requires fromBlock <= toBlock
      ensures logs == LogsBetween(cfg, chain, contract, fromBlock, toBlock + 1)
    {
      var ranges := BlockRanges(fromBlock, toBlock, MAX_GET_LOGS_BLOCK_SPAN);
      logs := [];
      var i := 0;
      while i < |ranges|
        invariant 0 <= i <= |ranges|
        invariant fromBlock <= RangeStart(ranges, toBlock, i)
        invariant logs == LogsBetween(cfg, chain, contract, fromBlock, RangeStart(ranges, toBlock, i))
      {
        var start, next := ranges[i].fromBlock, ranges[i].toBlock + 1;
        var chunk := LogsBetween(cfg, chain, contract, start, next);
        LogsBetweenSplits(cfg, chain, contract, fromBlock, start, next);
        logs := logs + chunk;
        i := i + 1;
        assert RangeStart(ranges, toBlock, i) == next;
      }
    }

    method Decode(logs: seq<Event>) returns (decoded: seq<Event>)
      modifies this
      ensures decoded == Filter(logs, Decodable)
      ensures unresolvedLogCount == old(unresolvedLogCount) + |Filter(logs, NotDecodable)|
    {
      decoded := [];
      var i := 0;
      while i < |logs|
        invariant 0 <= i <= |logs|
        invariant decoded == Filter(logs[..i], Decodable)
        invariant unresolvedLogCount == old(unresolvedLogCount) + |Filter(logs[..i], NotDecodable)|
      {
        assert logs[..i + 1] == logs[..i] + [logs[i]];
        FilterAppend(logs[..i], logs[i], Decodable);
        FilterAppend(logs[..i], logs[i], NotDecodable);
        if Decodable(logs[i]) {
          decoded := decoded + [logs[i]];
        } else {
          unresolvedLogCount := unresolvedLogCount + 1;
        }
        i := i + 1;
      }
      assert logs[..i] == logs;
    }
  }
}
