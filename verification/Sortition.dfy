/** Sortition: which content of a mined block counts, as the miner and the validator decide it. */
module Sortition {
  import opened Common
  import opened Merkle
  import opened MerkleTrees

  // ---- 256-bit hashes: bytes, their order and their value ----

  type Bytes = s: seq<nat> | forall i :: 0 <= i < |s| ==> s[i] < 256

  function Power(k: nat): nat {
    if k == 0 then 1 else 256 * Power(k - 1)
  }

  /** The big-endian value. */
  function FromBe(b: Bytes): nat {
    if b == [] then 0 else 256 * FromBe(b[..|b| - 1]) + b[|b| - 1]
  }

  datatype Ordering = Less | Equal | Greater

  function CompareNat(a: nat, b: nat): Ordering {
    if a < b then Less else if a == b then Equal else Greater
  }

  /** The order of the source: upper halves first, then lower halves. */
  function Compare(a: Bytes, b: Bytes): Ordering
    requires |a| == |b| == 32
  {
    var higher := CompareNat(FromBe(a[..16]), FromBe(b[..16]));
    if higher.Equal? then CompareNat(FromBe(a[16..]), FromBe(b[16..])) else higher
  }

  lemma {:induction false} FromBeBound(b: Bytes)
    ensures FromBe(b) < Power(|b|)
  {
    if b != [] { FromBeBound(b[..|b| - 1]); }
  }

  lemma PowerStep(k: nat)
    ensures Power(k + 1) == 256 * Power(k) && Power(k) > 0
  {
    if k > 0 { PowerStep(k - 1); }
  }

  lemma {:induction false} FromBeConcat(a: Bytes, b: Bytes)
    ensures FromBe(a + b) == FromBe(a) * Power(|b|) + FromBe(b)
  {
    if b == [] {
      assert a + b == a;
    } else {
      var k := |b| - 1;
      assert (a + b)[..|a + b| - 1] == a + b[..k];
      FromBeConcat(a, b[..k]);
      PowerStep(k);
      Regroup(FromBe(a), Power(k), FromBe(b[..k]), b[k]);
    }
  }

  lemma Regroup(x: nat, p: nat, y: nat, d: nat)
    ensures 256 * (x * p + y) + d == x * (256 * p) + (256 * y + d)
  {
    assert x * (256 * p) == 256 * (x * p);
  }

  lemma Lexicographic(x: nat, y: nat, u: nat, v: nat, k: nat)
    requires u < k && v < k && x < y
    ensures x * k + u < y * k + v
  {
    MulMonotone(k, x + 1, y);
  }

  /** Comparing halves is comparing the 256-bit numbers. */
  lemma CompareIsBigEndianOrder(a: Bytes, b: Bytes)
    requires |a| == |b| == 32
    ensures Compare(a, b) == CompareNat(FromBe(a), FromBe(b))
  {
    hide FromBe, Power;
    assert a == a[..16] + a[16..] && b == b[..16] + b[16..];
    var k, x, y, u, v := Power(16), FromBe(a[..16]), FromBe(b[..16]), FromBe(a[16..]), FromBe(b[16..]);
    FromBeConcat(a[..16], a[16..]);
    FromBeConcat(b[..16], b[16..]);
    FromBeBound(a[16..]);
    FromBeBound(b[16..]);
    if x < y { Lexicographic(x, y, u, v, k); }
    if y < x { Lexicographic(y, x, v, u, k); }
  }

  /** A hash is determined by its value, so it may be written as a number. */
  lemma {:induction false} FromBeInjective(a: Bytes, b: Bytes)
    requires |a| == |b|
    ensures FromBe(a) == FromBe(b) <==> a == b
  {
    if a != [] {
      var k := |a| - 1;
      FromBeInjective(a[..k], b[..k]);
      assert a == a[..k] + [a[k]] && b == b[..k] + [b[k]];
    }
  }

  // ---- sortition ----

  const U256: nat := Power(32)
  const U16: nat := 65536

  /** The widths of `BlockchainConfig`, as given numbers. */
  datatype Widths = Widths(voterChains: nat, totalWidth: nat, proposerWidth: nat, txWidth: nat)

  /** What `BlockchainConfig::new` guarantees: the widths add up to the total. */
  predicate WellFormed(c: Widths) {
    c.totalWidth > 0 && c.proposerWidth + c.txWidth <= c.totalWidth
  }

  /** The width of the proposer band, and of the band that follows it; the proposer width counts in both. */
  function ProposerBand(c: Widths, difficulty: nat): nat
    requires WellFormed(c)
  {
    difficulty / c.totalWidth * c.proposerWidth
  }

  function TransactionBand(c: Widths, difficulty: nat): nat
    requires WellFormed(c)
  {
    difficulty / c.totalWidth * (c.proposerWidth + c.txWidth)
  }

  function TransactionEnd(c: Widths, difficulty: nat): nat
    requires WellFormed(c)
  {
    TransactionBand(c, difficulty) + ProposerBand(c, difficulty)
  }

  function SortitionHash(c: Widths, hash: nat, difficulty: nat): Outcome<Option<nat>>
    requires WellFormed(c)
  {
    var proposerWidth := ProposerBand(c, difficulty);
    var transactionWidth := TransactionBand(c, difficulty);
    if proposerWidth >= U256 || transactionWidth >= U256 then Panicked
    else if hash < proposerWidth then Returned(Some(0))
    else if transactionWidth + proposerWidth >= U256 then Panicked
    else if hash < transactionWidth + proposerWidth then Returned(Some(1))
    else if hash < difficulty then
      if c.voterChains == 0 then Panicked
      else Returned(Some(VoterId(c, hash - proposerWidth - transactionWidth)))
    else Returned(None)
  }

  function VoterId(c: Widths, offset: nat): nat
    requires c.voterChains > 0
  {
    (offset % c.voterChains + 2) % U16
  }

  lemma VoterIdInRange(c: Widths, offset: nat)
    requires 1 <= c.voterChains <= 65533
    ensures 2 <= VoterId(c, offset) < c.voterChains + 2
  {
    assert offset % c.voterChains < c.voterChains;
  }

  lemma BandsFit(c: Widths, difficulty: nat)
    requires WellFormed(c)
    ensures ProposerBand(c, difficulty) <= difficulty && TransactionBand(c, difficulty) <= difficulty
  {
    BandFits(difficulty, c.totalWidth, c.proposerWidth);
    BandFits(difficulty, c.totalWidth, c.proposerWidth + c.txWidth);
  }

  lemma BandFits(difficulty: nat, total: nat, width: nat)
    requires 0 < total && width <= total
    ensures difficulty / total * width <= difficulty
  {
    var m := difficulty / total;
    MulMonotone(m, width, total);
    DivideBack(difficulty, total);
  }

  lemma MulMonotone(m: nat, w: nat, t: nat)
    requires w <= t
    ensures m * w <= m * t
  {
    assert m * t == m * w + m * (t - w);
  }

  lemma DivideBack(d: nat, t: nat)
    requires t > 0
    ensures d / t * t <= d
  {
    assert d == d / t * t + d % t;
  }

  /** Below the difficulty, sortition picks one of the contents - or overflows, exactly when the hash is past
      the proposer band and the ends of the bands do not fit in 256 bits. */
  lemma BelowDifficulty(c: Widths, hash: nat, difficulty: nat)
    requires WellFormed(c) && 1 <= c.voterChains <= 65533 && hash < difficulty < U256
    ensures
      var r := SortitionHash(c, hash, difficulty);
      && (r.Panicked? <==> ProposerBand(c, difficulty) <= hash && TransactionEnd(c, difficulty) >= U256)
      && (r.Returned? ==> r.value.Some? && r.value.value < c.voterChains + 2)
  {
    hide ProposerBand, TransactionBand, VoterId, Power;
    BandsFit(c, difficulty);
    if TransactionEnd(c, difficulty) <= hash {
      VoterIdInRange(c, hash - ProposerBand(c, difficulty) - TransactionBand(c, difficulty));
    }
  }

  predicate LetsThrough(c: Widths, hash: nat, difficulty: nat)
    requires WellFormed(c)
  {
    var r := SortitionHash(c, hash, difficulty);
    r.Returned? && r.value.Some?
  }

  /** Which hashes at or above the difficulty are let through: none, exactly when the transaction band ends
      at or below the difficulty. */
  lemma OnlyBelowDifficulty(c: Widths, difficulty: nat)
    requires WellFormed(c) && 1 <= c.voterChains && difficulty < U256 && TransactionEnd(c, difficulty) < U256
    ensures (forall hash: nat :: LetsThrough(c, hash, difficulty) ==> hash < difficulty) <==>
              TransactionEnd(c, difficulty) <= difficulty
  {
    hide ProposerBand, TransactionBand, VoterId, Power;
    BandsFit(c, difficulty);
    if TransactionEnd(c, difficulty) > difficulty {
      assert SortitionHash(c, difficulty, difficulty) == Returned(Some(1));
      assert LetsThrough(c, difficulty, difficulty);
    }
  }

  // ---- configurations that run into it ----

  const Precision: nat := 0xffff_ffff_ffff_ffff

  const DefaultDifficulty: nat := 0xffff_ffff_ffff_ffff_ffff_ffff_ffff_ffff_ffff_ffff_ffff_ffff_ffff_ffff_ffff_ffff

  lemma DefaultIsLargest()
    ensures U256 == Power(32) == DefaultDifficulty + 1
  {
    assert Power(4) == 0x1_0000_0000;
    assert Power(8) == 0x1_0000_0000_0000_0000;
    assert Power(16) == 0x1_0000_0000_0000_0000_0000_0000_0000_0000;
    assert Power(24) == 0x1_0000_0000_0000_0000_0000_0000_0000_0000_0000_0000_0000_0000;
  }

  /** A mined hash on which sortition fails. */
  predicate Overflows(c: Widths, hash: nat, difficulty: nat)
    requires WellFormed(c)
  {
    hash < difficulty && SortitionHash(c, hash, difficulty).Panicked?
  }

  /** With the default difficulty - all bytes 255 - sortition overflows for some hash, the largest mined one
      for instance, exactly when the proposer width exceeds the total width of the voter chains. */
  lemma DefaultDifficultyOverflows(c: Widths, voterWidths: nat)
    requires c.totalWidth == Precision && c.proposerWidth + voterWidths + c.txWidth == Precision
    requires 1 <= c.voterChains <= 65533 && voterWidths > 0
    ensures (exists hash: nat :: Overflows(c, hash, DefaultDifficulty)) <==> c.proposerWidth > voterWidths
    ensures c.proposerWidth > voterWidths ==> Overflows(c, DefaultDifficulty - 1, DefaultDifficulty)
  {
    hide SortitionHash, ProposerBand, Power;
    DefaultIsLargest();
    var d := DefaultDifficulty;
    var m := 0x1_0000_0000_0000_0001_0000_0000_0000_0001_0000_0000_0000_0001;
    assert m * Precision == d && d / Precision == m;
    DefaultBands(c, m, voterWidths);
    if c.proposerWidth > voterWidths {
      BelowDifficulty(c, d - 1, d);
      assert Overflows(c, d - 1, d);
    } else {
      forall hash: nat | hash < d ensures !SortitionHash(c, hash, d).Panicked? { BelowDifficulty(c, hash, d); }
    }
  }

  lemma DefaultBands(c: Widths, m: nat, voterWidths: nat)
    requires c.totalWidth == Precision && c.proposerWidth + voterWidths + c.txWidth == Precision
    requires voterWidths > 0 && m > 1 && m * Precision == DefaultDifficulty && DefaultDifficulty / Precision == m
    ensures TransactionEnd(c, DefaultDifficulty) > DefaultDifficulty <==> c.proposerWidth > voterWidths
    ensures ProposerBand(c, DefaultDifficulty) < DefaultDifficulty
  {
    var p, t := c.proposerWidth, c.txWidth;
    assert TransactionEnd(c, DefaultDifficulty) == m * (p + t) + m * p;
    assert m * (p + t) + m * p == m * (p + t + p);
    if p > voterWidths {
      MulMonotone(m, Precision + 1, p + t + p);
      assert m * (Precision + 1) == m * Precision + m;
    } else {
      MulMonotone(m, p + t + p, Precision);
    }
    MulMonotone(m, p, Precision - 1);
    assert m * (Precision - 1) == m * Precision - m;
  }

  /** With the difficulty equal to the total width, and the proposer width above that of the voters, the
      hash equal to the difficulty is let through as a transaction block. */
  lemma DifficultyItselfPasses(c: Widths, voterWidths: nat)
    requires c.totalWidth == Precision && c.proposerWidth + voterWidths + c.txWidth == Precision
    requires c.proposerWidth > voterWidths
    ensures SortitionHash(c, Precision, Precision) == Returned(Some(1))
  {
    DefaultIsLargest();
    assert Precision / Precision == 1;
    assert ProposerBand(c, Precision) == c.proposerWidth
      && TransactionBand(c, Precision) == c.proposerWidth + c.txWidth;
  }

  // ---- blocks, and what the validator checks ----

  /** Contents by kind; `payload` stands for everything else in them. */
  datatype Content =
    | Proposer(payload: nat)
    | Transaction(payload: nat)
    | Voter(chainNumber: nat, payload: nat)

  datatype Header = Header(root: Hash, difficulty: Hash, nonce: nat)
  datatype MinedBlock = MinedBlock(header: Header, content: Content, sortitionProof: seq<Hash>)

  /** The hash functions: of headers, of contents, and of pairs. */
  datatype Hashes = Hashes(header: Header -> Hash, content: Content -> Hash, pair: PairHash)

  datatype BlockResult = Pass | WrongPoW | WrongSortitionId | WrongSortitionProof

  function SortitionIdOf(content: Content): nat {
    match content
    case Proposer(_) => 0
    case Transaction(_) => 1
    case Voter(chain, _) => (chain + 2) % U16
  }

  function CheckPowSortitionId(c: Widths, hs: Hashes, b: MinedBlock): Outcome<BlockResult>
    requires WellFormed(c)
  {
    match SortitionHash(c, hs.header(b.header), b.header.difficulty)
    case Panicked => Panicked
    case Returned(None) => Returned(WrongPoW)
    case Returned(Some(id)) => Returned(if id != SortitionIdOf(b.content) then WrongSortitionId else Pass)
  }

  function CheckSortitionProof(c: Widths, hs: Hashes, b: MinedBlock): Outcome<BlockResult>
    requires WellFormed(c)
  {
    match SortitionHash(c, hs.header(b.header), b.header.difficulty)
    case Panicked => Panicked
    case Returned(None) => Panicked
    case Returned(Some(id)) =>
      if Accepts(hs.pair, b.header.root, hs.content(b.content), b.sortitionProof, id, (c.voterChains + 2) % U16)
      then Returned(Pass) else Returned(WrongSortitionProof)
  }

  /** The bands in numbers: the end of the proposer band, and of the transaction band. */
  ghost predicate Bands(c: Widths, difficulty: nat, first: nat, second: nat)
    requires WellFormed(c)
  {
    && first == difficulty / c.totalWidth * c.proposerWidth
    && second == difficulty / c.totalWidth * (2 * c.proposerWidth + c.txWidth)
  }

  lemma BandEnds(c: Widths, difficulty: nat)
    requires WellFormed(c)
    ensures Bands(c, difficulty, ProposerBand(c, difficulty), TransactionEnd(c, difficulty))
  {
    var m, p, t := difficulty / c.totalWidth, c.proposerWidth, c.txWidth;
    assert m * (p + t) + m * p == m * (2 * p + t) by { assert (p + t) + p == 2 * p + t; }
  }

  /** The validator's verdict, for every block: it passes exactly when the hash selects the kind of the content and,
      for a voter content, its chain - or a chain number whose 16-bit id wraps to that of another kind. */
  lemma PowVerdict(c: Widths, hs: Hashes, b: MinedBlock, first: nat, second: nat)
    requires WellFormed(c) && 1 <= c.voterChains <= 65533 && b.header.difficulty < U256
    requires Bands(c, b.header.difficulty, first, second)
    requires b.content.Voter? ==> b.content.chainNumber < U16
    ensures
      var hash, r := hs.header(b.header), CheckPowSortitionId(c, hs, b);
      && (r == Panicked <==> first <= hash && second >= U256)
      && (r == Returned(Pass) <==>
            || (hash < first && (b.content.Proposer? || IsVoterOf(b.content, 65534)))
            || (first <= hash < second < U256 && (b.content.Transaction? || IsVoterOf(b.content, 65535)))
            || (second <= hash < b.header.difficulty && first <= hash && second < U256
                && IsVoterOf(b.content, (hash - second) % c.voterChains)))
      && (r == Returned(WrongPoW) <==> first <= hash && second < U256 && second <= hash && b.header.difficulty <= hash)
  {
    hide SortitionHash, Bands, Power, SortitionIdOf;
    IdByBand(c, hs.header(b.header), b.header.difficulty, first, second);
    IdOfContent(b.content);
  }

  /** What sortition returns, band by band. */
  lemma IdByBand(c: Widths, hash: nat, difficulty: nat, first: nat, second: nat)
    requires WellFormed(c) && 1 <= c.voterChains <= 65533 && difficulty < U256 && Bands(c, difficulty, first, second)
    ensures SortitionHash(c, hash, difficulty) ==
            if hash < first then Returned(Some(0))
            else if second >= U256 then Panicked
            else if hash < second then Returned(Some(1))
            else if hash < difficulty then Returned(Some((hash - second) % c.voterChains + 2))
            else Returned(None)
    ensures (hash - second) % c.voterChains < 65533
  {
    BandEnds(c, difficulty);
    hide ProposerBand, TransactionBand, Power;
    BandsFit(c, difficulty);
    assert first == ProposerBand(c, difficulty) && second == TransactionEnd(c, difficulty);
    hide Bands, VoterId;
    if second <= hash { VoterIdIs(c, hash - second); }
  }

  lemma IdOfContent(content: Content)
    requires content.Voter? ==> content.chainNumber < U16
    ensures SortitionIdOf(content) == 0 <==> content.Proposer? || IsVoterOf(content, 65534)
    ensures SortitionIdOf(content) == 1 <==> content.Transaction? || IsVoterOf(content, 65535)
    ensures forall k: nat :: k < 65534 ==> (SortitionIdOf(content) == k + 2 <==> IsVoterOf(content, k))
  {
  }

  /** A voter content with chain number 65534 passes as a proposer content: its id wraps to 0. */
  lemma WrappedChainPasses(c: Widths, hs: Hashes, header: Header, payload: nat, proof: seq<Hash>)
    requires WellFormed(c) && 1 <= c.voterChains <= 65533 && header.difficulty < U256
    requires hs.header(header) < header.difficulty / c.totalWidth * c.proposerWidth
    ensures CheckPowSortitionId(c, hs, MinedBlock(header, Voter(65534, payload), proof)) == Returned(Pass)
  {
    hide CheckPowSortitionId, ProposerBand, TransactionEnd, Power;
    var d := header.difficulty;
    BandEnds(c, d);
    PowVerdict(c, hs, MinedBlock(header, Voter(65534, payload), proof), ProposerBand(c, d), TransactionEnd(c, d));
  }

  predicate IsVoterOf(content: Content, chain: nat) {
    content.Voter? && content.chainNumber == chain
  }

  lemma VoterIdIs(c: Widths, offset: nat)
    requires 1 <= c.voterChains <= 65533
    ensures VoterId(c, offset) == offset % c.voterChains + 2 < 65536
  {
    assert offset % c.voterChains < c.voterChains;
  }

  /** The header decides: two blocks with one header that both pass, with chain numbers in range, are of one kind
      and, if they are voter blocks, of one chain. */
  lemma HeaderDecides(c: Widths, hs: Hashes, a: MinedBlock, b: MinedBlock)
    requires WellFormed(c) && 1 <= c.voterChains <= 65533 && a.header == b.header && a.header.difficulty < U256
    requires a.content.Voter? ==> a.content.chainNumber < c.voterChains
    requires b.content.Voter? ==> b.content.chainNumber < c.voterChains
    requires CheckPowSortitionId(c, hs, a) == CheckPowSortitionId(c, hs, b) == Returned(Pass)
    ensures a.content.Proposer? == b.content.Proposer? && a.content.Transaction? == b.content.Transaction?
    ensures a.content.Voter? ==> b.content.Voter? && a.content.chainNumber == b.content.chainNumber
  {
    hide CheckPowSortitionId, ProposerBand, TransactionEnd, Bands, Power;
    var d := a.header.difficulty;
    BandEnds(c, d);
    PowVerdict(c, hs, a, ProposerBand(c, d), TransactionEnd(c, d));
    PowVerdict(c, hs, b, ProposerBand(c, d), TransactionEnd(c, d));
  }

  /** Consecutive hashes above the bands select consecutive chains. */
  lemma ConsecutiveChains(c: Widths, hash: nat, difficulty: nat)
    requires WellFormed(c) && 1 <= c.voterChains <= 65533 && difficulty < U256 && TransactionEnd(c, difficulty) < U256
    requires TransactionEnd(c, difficulty) <= hash && hash + 1 < difficulty
    ensures
      var i, j := SortitionHash(c, hash, difficulty), SortitionHash(c, hash + 1, difficulty);
      && i.Returned? && j.Returned? && i.value.Some? && j.value.Some? && i.value.value >= 2
      && j.value.value == 2 + (i.value.value - 2 + 1) % c.voterChains
  {
    hide ProposerBand, TransactionBand, Power;
    BandsFit(c, difficulty);
    var offset := hash - TransactionEnd(c, difficulty);
    VoterIdIs(c, offset);
    VoterIdIs(c, offset + 1);
    hide VoterId;
    NextModulo(offset, c.voterChains);
  }

  lemma NextModulo(x: nat, n: nat)
    requires n > 0
    ensures (x + 1) % n == (x % n + 1) % n
  {
    var q, r := x / n, x % n;
    assert x == q * n + r;
    if r + 1 == n {
      assert (q + 1) * n == q * n + n;
      RemainderIs(x + 1, q + 1, 0, n);
      RemainderIs(n, 1, 0, n);
    } else {
      RemainderIs(x + 1, q, r + 1, n);
      RemainderIs(r + 1, 0, r + 1, n);
    }
  }

  lemma RemainderIs(x: nat, q: nat, r: nat, n: nat)
    requires r < n && x == q * n + r
    ensures x % n == r
  {
    var p, s := x / n, x % n;
    assert x == p * n + s;
    if q < p {
      MulMonotone(n, q + 1, p);
    } else if p < q {
      MulMonotone(n, p + 1, q);
    }
  }

  // ---- mining ----

  /** One candidate content per chain, in the order of the sortition ids. */
  ghost predicate Candidates(c: Widths, contents: seq<Content>) {
    && |contents| == c.voterChains + 2 && contents[0].Proposer? && contents[1].Transaction?
    && forall i :: 2 <= i < |contents| ==> contents[i].Voter? && contents[i].chainNumber == i - 2
  }

  /** Initial contents, one voter content per chain. */
  method NewContents(c: Widths) returns (contents: seq<Content>)
    ensures Candidates(c, contents)
  {
    contents := [Proposer(0), Transaction(0)];
    for i := 0 to c.voterChains
      invariant |contents| == i + 2 && contents[0].Proposer? && contents[1].Transaction?
      invariant forall k :: 2 <= k < i + 2 ==> contents[k].Voter? && contents[k].chainNumber == k - 2
    {
      contents := contents + [Voter(i, 0)];
    }
  }

  /** Turn a header whose hash is below its difficulty into a block. It succeeds unless the bands overflow,
      and the block passes both sortition checks. */
  method ProduceBlock(c: Widths, hs: Hashes, header: Header, contents: seq<Content>, tree: MerkleTree)
    returns (r: Outcome<MinedBlock>)
    requires WellFormed(c) && 1 <= c.voterChains <= 65533 && Candidates(c, contents)
    requires tree.Valid() && tree.pair == hs.pair && tree.leaves == Hashed(hs.content, contents)
    requires header.root == Root(hs.pair, tree.leaves) && hs.header(header) < header.difficulty < U256
    ensures r.Panicked? <==>
              ProposerBand(c, header.difficulty) <= hs.header(header) && TransactionEnd(c, header.difficulty) >= U256
    ensures r.Returned? ==>
              && r.value.header == header
              && CheckPowSortitionId(c, hs, r.value) == Returned(Pass)
              && CheckSortitionProof(c, hs, r.value) == Returned(Pass)
  {
    hide SortitionHash, ProposerBand, TransactionEnd, Root, Siblings, Accepts, Power, Sizes;
    BelowDifficulty(c, hs.header(header), header.difficulty);
    var sortition := SortitionHash(c, hs.header(header), header.difficulty);
    if sortition.Panicked? {
      return Panicked;
    }
    var id := sortition.value.value;
    var proof := tree.Proof(id);
    ProofIsAccepted(hs.pair, tree.leaves, id);
    var block := MinedBlock(header, contents[id], proof);
    IdMatches(c, contents, id);
    return Returned(block);
  }

  lemma IdMatches(c: Widths, contents: seq<Content>, id: nat)
    requires c.voterChains <= 65533 && Candidates(c, contents) && id < |contents|
    ensures SortitionIdOf(contents[id]) == id
  {
  }

  /** The miner cannot choose: without hash collisions, a block passes the proof check if and only if it carries the
      one candidate that its header hash selects, with that candidate's own proof. */
  lemma SortitionIsBinding(c: Widths, hs: Hashes, contents: seq<Content>, b: MinedBlock)
    requires WellFormed(c) && c.voterChains <= 65533 && Candidates(c, contents)
    requires forall p, q, x, y :: hs.pair(p, q) == hs.pair(x, y) ==> p == x && q == y
    requires forall x, y :: hs.content(x) == hs.content(y) ==> x == y
    requires b.header.root == Root(hs.pair, Hashed(hs.content, contents))
    ensures
      var id := SortitionHash(c, hs.header(b.header), b.header.difficulty);
      CheckSortitionProof(c, hs, b) == Returned(Pass) <==>
        && id.Returned? && id.value.Some? && id.value.value < |contents| && b.content == contents[id.value.value]
        && b.sortitionProof == Siblings(hs.pair, Hashed(hs.content, contents), id.value.value)
  {
    hide SortitionHash, Root, Siblings, Accepts;
    var id := SortitionHash(c, hs.header(b.header), b.header.difficulty);
    if id.Returned? && id.value.Some? {
      OnlyTheLeafIsAccepted(hs.pair, Hashed(hs.content, contents), hs.content(b.content), b.sortitionProof,
                            id.value.value);
    }
  }
}
