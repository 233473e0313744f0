/**
 The genesis COIN distribution (distribution/src/lib.rs): proposals are filled entry by entry, one of
 them is sealed, its entries are claimed from the vault during the claim window, and what is left is
 burned afterwards.
 */
module Distribution {
  import opened Machine

  const MAX_ENTRIES: u32 := 10_000

  datatype Entry = Entry(recipient: Pubkey, amount: u64)

  datatype Proposal = Proposal(creator: Pubkey, capacity: u32, entries: seq<Entry>, totalAmount: u64, sealed: bool)

  datatype DistConfig = DistConfig(claimWindow: u64, totalSupply: u64, sealedProposal: Pubkey, sealSlot: u64) {
    predicate IsSealed() {
      sealedProposal != DEFAULT_KEY
    }

    function WindowEnd(): u64 {
      Min(sealSlot + claimWindow, U64_MAX)
    }
  }

  /** The accounts of one distribution, with a record of the COIN that entered and left the vault. */
  datatype Dist = Dist(config: DistConfig, proposals: map<Pubkey, Proposal>, vault: u64, received: nat, paid: nat, burned: nat)

  function CreateProposal(d: Dist, key: Pubkey, creator: Pubkey, capacity: u32): Result<Dist> {
    if capacity == 0 || capacity > MAX_ENTRIES || d.config.IsSealed() || key == DEFAULT_KEY then Err(InvalidInstructionData)
    else if key in d.proposals then Err(AccountAlreadyInitialized)
    else Ok(d.(proposals := d.proposals[key := Proposal(creator, capacity, [], 0, false)]))
  }

  /** The new total of a batch of entries, every one of them valid and within the supply. */
  function AppendTotal(total: u64, batch: seq<Entry>, supply: u64): Result<u64>
    decreases |batch|
  {
    if batch == [] then Ok(total)
    else if batch[0].amount == 0 || batch[0].recipient == DEFAULT_KEY then Err(InvalidInstructionData)
    else if total + batch[0].amount > U64_MAX then Err(ArithmeticOverflow)
    else if total + batch[0].amount > supply then Err(InvalidInstructionData)
    else AppendTotal(total + batch[0].amount, batch[1..], supply)
  }

  function AppendEntries(d: Dist, key: Pubkey, creator: Pubkey, batch: seq<Entry>): Result<Dist> {
    if key !in d.proposals then Err(IllegalOwner)
    else
      var header := d.proposals[key];
      if header.creator != creator then Err(InvalidAccountData)
      else if header.sealed || d.config.IsSealed() then Err(InvalidInstructionData)
      else if |header.entries| + |batch| > U32_MAX then Err(ArithmeticOverflow)
      else if |header.entries| + |batch| > header.capacity then Err(InvalidInstructionData)
      else
        var total :- AppendTotal(header.totalAmount, batch, d.config.totalSupply);
        Ok(d.(proposals := d.proposals[key := header.(entries := header.entries + batch, totalAmount := total)]))
  }

  /** Called only by the seal authority. */
  function SealWinner(d: Dist, key: Pubkey, now: u64): Result<Dist> {
    if d.config.IsSealed() then Err(InvalidInstructionData)
    else if key !in d.proposals then Err(IllegalOwner)
    else if |d.proposals[key].entries| == 0 then Err(InvalidAccountData)
    else if d.proposals[key].totalAmount > d.config.totalSupply then Err(InvalidInstructionData)
    else Ok(d.(config := d.config.(sealedProposal := key, sealSlot := now),
               proposals := d.proposals[key := d.proposals[key].(sealed := true)]))
  }

  /** Pay entry `index` of the sealed proposal to its recipient and zero it. */
  function Claim(d: Dist, key: Pubkey, recipient: Pubkey, index: u32, now: u64): Result<(Dist, u64)> {
    if !d.config.IsSealed() || d.config.sealedProposal != key || key !in d.proposals then Err(InvalidAccountData)
    else if now >= d.config.WindowEnd() then Err(InvalidInstructionData)
    else
      var header := d.proposals[key];
      if index >= |header.entries| then Err(InvalidInstructionData)
      else
        var entry := header.entries[index];
        if entry.recipient != recipient then Err(IllegalOwner)
        else if entry.amount == 0 then Err(InvalidInstructionData)
        else if entry.amount > d.vault then Err(CpiRejected)
        else
          Ok((d.(vault := d.vault - entry.amount,
                 paid := d.paid + entry.amount,
                 proposals := d.proposals[key := header.(entries := header.entries[index := entry.(amount := 0)])]),
              entry.amount))
  }

  function BurnUnclaimed(d: Dist, now: u64): Result<Dist> {
    if !d.config.IsSealed() || now < d.config.WindowEnd() then Err(InvalidInstructionData)
    else Ok(d.(vault := 0, burned := d.burned + d.vault))
  }

  /** Anyone can send COIN to the vault. */
  function DonateCoin(d: Dist, amount: u64): Result<Dist> {
    if d.vault + amount > U64_MAX then Err(CpiRejected)
    else Ok(d.(vault := d.vault + amount, received := d.received + amount))
  }

  // ------------------------------------------------------------------------------------------
  // Totals
  // ------------------------------------------------------------------------------------------

  function Total(entries: seq<Entry>): nat {
    if entries == [] then 0 else entries[0].amount + Total(entries[1..])
  }

  lemma {:induction false} TotalAppend(a: seq<Entry>, b: seq<Entry>)
    ensures Total(a + b) == Total(a) + Total(b)
  {
    if a == [] {
      assert a + b == b;
    } else {
      TotalAppend(a[1..], b);
      assert (a + b)[1..] == a[1..] + b;
    }
  }

  lemma {:induction false} TotalUpdate(entries: seq<Entry>, i: nat, e: Entry)
    requires i < |entries|
    ensures Total(entries[i := e]) == Total(entries) - entries[i].amount + e.amount
    ensures entries[i].amount <= Total(entries)
  {
    if i > 0 {
      TotalUpdate(entries[1..], i - 1, e);
      assert entries[i := e][1..] == entries[1..][i - 1 := e];
    } else {
      assert entries[i := e][1..] == entries[1..];
    }
  }

  /** An accepted batch is valid throughout, and its total is the exact sum within the supply. */
  lemma {:induction false} AppendTotalExact(total: u64, batch: seq<Entry>, supply: u64)
    requires total <= supply
    ensures var r := AppendTotal(total, batch, supply);
            r.Ok? <==> (&& total + Total(batch) <= supply
                        && forall i :: 0 <= i < |batch| ==> batch[i].amount != 0 && batch[i].recipient != DEFAULT_KEY)
    ensures var r := AppendTotal(total, batch, supply);
            r.Ok? ==> r.value == total + Total(batch)
    decreases |batch|
  {
    if batch != [] && batch[0].amount != 0 && batch[0].recipient != DEFAULT_KEY && total + batch[0].amount <= supply {
      AppendTotalExact(total + batch[0].amount, batch[1..], supply);
      assert batch == [batch[0]] + batch[1..];
    }
  }

  // ------------------------------------------------------------------------------------------
  // The invariant
  // ------------------------------------------------------------------------------------------

  predicate ProposalOk(config: DistConfig, key: Pubkey, p: Proposal) {
    && key != DEFAULT_KEY
    && |p.entries| <= p.capacity <= MAX_ENTRIES
    && p.totalAmount <= config.totalSupply
    && (p.sealed <==> key == config.sealedProposal)
    && (!p.sealed ==> Total(p.entries) == p.totalAmount)
  }

  /**
   COIN is conserved; nothing leaves the vault before the seal, and afterwards it covers the unclaimed
   entries until the claims close.
   */
  ghost predicate DistInv(d: Dist, now: u64) {
    && (forall k :: k in d.proposals ==> ProposalOk(d.config, k, d.proposals[k]))
    && d.vault + d.paid + d.burned == d.received
    && (if !d.config.IsSealed() then d.vault >= d.config.totalSupply && d.paid == d.burned == 0
        else
          && d.config.sealedProposal in d.proposals
          && d.config.sealSlot <= now
          && d.paid + Total(d.proposals[d.config.sealedProposal].entries)
             == d.proposals[d.config.sealedProposal].totalAmount
          && (d.burned > 0 ==> now >= d.config.WindowEnd())
          && (d.burned == 0 ==> d.vault >= Total(d.proposals[d.config.sealedProposal].entries)))
  }

  lemma CreateKeeps(d: Dist, key: Pubkey, creator: Pubkey, capacity: u32, now: u64)
    requires DistInv(d, now) && CreateProposal(d, key, creator, capacity).Ok?
    ensures DistInv(CreateProposal(d, key, creator, capacity).value, now)
  {
  }

  lemma AppendKeeps(d: Dist, key: Pubkey, creator: Pubkey, batch: seq<Entry>, now: u64)
    requires DistInv(d, now) && AppendEntries(d, key, creator, batch).Ok?
    ensures DistInv(AppendEntries(d, key, creator, batch).value, now)
  {
    AppendTotalExact(d.proposals[key].totalAmount, batch, d.config.totalSupply);
    TotalAppend(d.proposals[key].entries, batch);
  }

  /** Proposals are created before the seal, with room for 1 to 10000 entries, and start empty. */
  lemma CreateSucceedsExactly(d: Dist, key: Pubkey, creator: Pubkey, capacity: u32)
    ensures CreateProposal(d, key, creator, capacity).Ok?
       <==> 1 <= capacity <= 10_000 && !d.config.IsSealed() && key != DEFAULT_KEY && key !in d.proposals
    ensures CreateProposal(d, key, creator, capacity).Ok? ==>
              CreateProposal(d, key, creator, capacity).value
              == d.(proposals := d.proposals[key := Proposal(creator, capacity, [], 0, false)])
  {
  }

  /**
   Only its creator fills a proposal, before any seal and within its capacity, with valid entries that keep
   the sum within the supply; the entries already there stay.
   */
  lemma AppendSucceedsExactly(d: Dist, key: Pubkey, creator: Pubkey, batch: seq<Entry>, now: u64)
    requires DistInv(d, now)
    ensures AppendEntries(d, key, creator, batch).Ok?
       <==> (&& key in d.proposals && d.proposals[key].creator == creator && !d.config.IsSealed()
             && |d.proposals[key].entries| + |batch| <= d.proposals[key].capacity
             && (forall i :: 0 <= i < |batch| ==> batch[i].amount != 0 && batch[i].recipient != DEFAULT_KEY)
             && Total(d.proposals[key].entries + batch) <= d.config.totalSupply)
    ensures AppendEntries(d, key, creator, batch).Ok? ==>
              && AppendEntries(d, key, creator, batch).value.proposals[key].entries == d.proposals[key].entries + batch
              && AppendEntries(d, key, creator, batch).value.proposals.Keys == d.proposals.Keys
              && forall k :: k in d.proposals && k != key ==>
                   AppendEntries(d, key, creator, batch).value.proposals[k] == d.proposals[k]
  {
    if key in d.proposals {
      assert ProposalOk(d.config, key, d.proposals[key]);
      AppendTotalExact(d.proposals[key].totalAmount, batch, d.config.totalSupply);
      TotalAppend(d.proposals[key].entries, batch);
    }
  }

  lemma SealKeeps(d: Dist, key: Pubkey, now: u64)
    requires DistInv(d, now) && SealWinner(d, key, now).Ok?
    ensures DistInv(SealWinner(d, key, now).value, now)
  {
  }

  /** A claim pays the entry to its own recipient, leaves the other entries alone, and keeps the rest covered. */
  lemma ClaimKeeps(d: Dist, key: Pubkey, recipient: Pubkey, index: u32, now: u64)
    requires DistInv(d, now) && Claim(d, key, recipient, index, now).Ok?
    ensures var (d', amount) := Claim(d, key, recipient, index, now).value;
            && DistInv(d', now)
            && d.proposals[key].entries[index] == Entry(recipient, amount) && amount > 0
            && d'.proposals[key].entries == d.proposals[key].entries[index := Entry(recipient, 0)]
            && d'.paid == d.paid + amount && d'.vault == d.vault - amount && d'.received == d.received
  {
    TotalUpdate(d.proposals[key].entries, index, d.proposals[key].entries[index].(amount := 0));
  }

  lemma BurnKeeps(d: Dist, now: u64)
    requires DistInv(d, now) && BurnUnclaimed(d, now).Ok?
    ensures DistInv(BurnUnclaimed(d, now).value, now)
    ensures BurnUnclaimed(d, now).value.received == d.received
  {
  }

  lemma DonateKeeps(d: Dist, amount: u64, now: u64)
    requires DistInv(d, now) && DonateCoin(d, amount).Ok?
    ensures DistInv(DonateCoin(d, amount).value, now)
  {
  }

  /**
   A claim succeeds exactly for the sealed proposal, before seal slot plus claim window (the last u64 slot at
   most), for an entry that is still unclaimed, by the recipient it names: the vault never refuses.
   */
  lemma ClaimSucceedsExactly(d: Dist, key: Pubkey, recipient: Pubkey, index: u32, now: u64)
    requires DistInv(d, now)
    ensures Claim(d, key, recipient, index, now).Ok?
       <==> (&& key in d.proposals && key == d.config.sealedProposal
             && now < Min(d.config.sealSlot + d.config.claimWindow, U64_MAX)
             && index < |d.proposals[key].entries|
             && d.proposals[key].entries[index].recipient == recipient
             && d.proposals[key].entries[index].amount > 0)
  {
    if key in d.proposals {
      assert ProposalOk(d.config, key, d.proposals[key]);
      if index < |d.proposals[key].entries| {
        TotalUpdate(d.proposals[key].entries, index, d.proposals[key].entries[index]);
      }
    }
  }

  /** Within the window every unclaimed entry can be claimed by its recipient, in any order. */
  lemma UnclaimedIsPayable(d: Dist, index: u32, now: u64)
    requires DistInv(d, now) && d.config.IsSealed()
    requires now < Min(d.config.sealSlot + d.config.claimWindow, U64_MAX)
    requires index < |d.proposals[d.config.sealedProposal].entries|
    ensures var entry := d.proposals[d.config.sealedProposal].entries[index];
            var r := Claim(d, d.config.sealedProposal, entry.recipient, index, now);
            entry.amount > 0 ==> r.Ok? && r.value.1 == entry.amount
  {
    ClaimSucceedsExactly(d, d.config.sealedProposal, d.proposals[d.config.sealedProposal].entries[index].recipient,
                         index, now);
  }

  /** Burning starts exactly where claiming ends, and takes the whole vault. */
  lemma BurnSucceedsExactly(d: Dist, now: u64)
    requires DistInv(d, now)
    ensures BurnUnclaimed(d, now).Ok?
       <==> d.config.IsSealed() && now >= Min(d.config.sealSlot + d.config.claimWindow, U64_MAX)
    ensures BurnUnclaimed(d, now).Ok? ==>
              BurnUnclaimed(d, now).value == d.(vault := 0, burned := d.burned + d.vault)
  {
  }

  // ------------------------------------------------------------------------------------------
  // The program's form
  // ------------------------------------------------------------------------------------------

  class DistributionProgram {
    var config: DistConfig
    var proposals: map<Pubkey, Proposal>
    var vault: u64
    var received: nat
    var paid: nat
    var burned: nat

    function State(): Dist
      reads this
    {
      Dist(config, proposals, vault, received, paid, burned)
    }

    /** The supply is committed only when the vault already holds all of it. */
    constructor (claimWindow: u64, totalSupply: u64, vaultAmount: u64)
      requires totalSupply > 0 && claimWindow > 0 && vaultAmount >= totalSupply
      ensures DistInv(State(), 0) && !config.IsSealed()
    {
      config := DistConfig(claimWindow, totalSupply, DEFAULT_KEY, 0);
      proposals, vault, received, paid, burned := map[], vaultAmount, vaultAmount, 0, 0;
    }

    /** Two passes over the batch: validate and total it, then write the slots. */
    method Append(key: Pubkey, creator: Pubkey, batch: seq<Entry>) returns (r: Result<()>)
      modifies this
      ensures r.Ok? ==> AppendEntries(old(State()), key, creator, batch) == Ok(State())
      ensures r.Err? ==> AppendEntries(old(State()), key, creator, batch) == Err(r.error) && State() == old(State())
      ensures forall at: u64 :: old(DistInv(State(), at)) ==> DistInv(State(), at)
    {
      if key !in proposals {
        return Err(IllegalOwner);
      }
      var header := proposals[key];
      if header.creator != creator {
        return Err(InvalidAccountData);
      }
      if header.sealed || config.IsSealed() {
        return Err(InvalidInstructionData);
      }
      var first := |header.entries|;
      if first + |batch| > U32_MAX {
        return Err(ArithmeticOverflow);
      }
      if first + |batch| > header.capacity {
        return Err(InvalidInstructionData);
      }
      var total: u64 := header.totalAmount;
      for i := 0 to |batch|
        invariant AppendTotal(total, batch[i..], config.totalSupply)
               == AppendTotal(header.totalAmount, batch, config.totalSupply)
        invariant State() == old(State())
      {
        assert batch[i..][1..] == batch[i + 1..];
        if batch[i].amount == 0 || batch[i].recipient == DEFAULT_KEY {
          return Err(InvalidInstructionData);
        }
        if total + batch[i].amount > U64_MAX {
          return Err(ArithmeticOverflow);
        }
        total := total + batch[i].amount;
        if total > config.totalSupply {
          return Err(InvalidInstructionData);
        }
      }
      var entries := header.entries;
      for i := 0 to |batch|
        invariant entries == header.entries + batch[..i]
        invariant State() == old(State())
      {
        entries := entries + [batch[i]];
      }
      assert batch[..|batch|] == batch;
      proposals := proposals[key := header.(entries := entries, totalAmount := total)];
      r := Ok(());
      forall at: u64 | DistInv(old(State()), at) ensures DistInv(State(), at) {
        AppendKeeps(old(State()), key, creator, batch, at);
      }
    }

    method Seal(key: Pubkey, now: u64) returns (r: Result<()>)
      modifies this
      ensures r.Ok? ==> SealWinner(old(State()), key, now) == Ok(State())
      ensures r.Err? ==> SealWinner(old(State()), key, now) == Err(r.error) && State() == old(State())
      ensures old(DistInv(State(), now)) ==> DistInv(State(), now)
    {
      if config.IsSealed() {
        return Err(InvalidInstructionData);
      }
      if key !in proposals {
        return Err(IllegalOwner);
      }
      var header := proposals[key];
      if |header.entries| == 0 {
        return Err(InvalidAccountData);
      }
      if header.totalAmount > config.totalSupply {
        return Err(InvalidInstructionData);
      }
      config := config.(sealedProposal := key, sealSlot := now);
      proposals := proposals[key := header.(sealed := true)];
      r := Ok(());
      if DistInv(old(State()), now) {
        SealKeeps(old(State()), key, now);
      }
    }

    method ClaimEntry(key: Pubkey, recipient: Pubkey, index: u32, now: u64) returns (r: Result<u64>)
      modifies this
      ensures r.Ok? ==> Claim(old(State()), key, recipient, index, now) == Ok((State(), r.value))
      ensures r.Err? ==> Claim(old(State()), key, recipient, index, now) == Err(r.error) && State() == old(State())
      ensures old(DistInv(State(), now)) ==> DistInv(State(), now)
    {
      if !config.IsSealed() || config.sealedProposal != key || key !in proposals {
        return Err(InvalidAccountData);
      }
      if now >= config.WindowEnd() {
        return Err(InvalidInstructionData);
      }
      var header := proposals[key];
      if index >= |header.entries| {
        return Err(InvalidInstructionData);
      }
      var entry := header.entries[index];
      if entry.recipient != recipient {
        return Err(IllegalOwner);
      }
      if entry.amount == 0 {
        return Err(InvalidInstructionData);
      }
      if entry.amount > vault {
        return Err(CpiRejected);
      }
      vault, paid := vault - entry.amount, paid + entry.amount;
      proposals := proposals[key := header.(entries := header.entries[index := entry.(amount := 0)])];
      r := Ok(entry.amount);
      if DistInv(old(State()), now) {
        ClaimKeeps(old(State()), key, recipient, index, now);
      }
    }

    method Burn(now: u64) returns (r: Result<()>)
      modifies this
      ensures r.Ok? ==> BurnUnclaimed(old(State()), now) == Ok(State())
      ensures r.Err? ==> BurnUnclaimed(old(State()), now) == Err(r.error) && State() == old(State())
      ensures old(DistInv(State(), now)) ==> DistInv(State(), now)
    {
      if !config.IsSealed() || now < config.WindowEnd() {
        return Err(InvalidInstructionData);
      }
      vault, burned := 0, burned + vault;
      r := Ok(());
      if DistInv(old(State()), now) {
        BurnKeeps(old(State()), now);
      }
    }
  }
}
