/**
 * The fixed-weight splitter of the vesting contract: a store of weights by
 * address (18-decimal fixed point), written only when the new weights add up to
 * exactly one (addresses left out of a later call keep their earlier weight),
 * and the transfers that split an amount among the stored
 * addresses in ascending address order.
 *
 * The ordered key-value store is modelled as a list of `(address, weight)`
 * entries in strictly ascending address order; addresses compare by their
 * characters, which is the byte order of their UTF-8 encoding.
 */
module MassDistribution {
  import opened Wrappers
  import opened Chain

  /** `Decimal::one()`: a `Decimal` is a 128-bit numerator over 10^18. */
  const ONE: nat := 1_000_000_000_000_000_000

  type Decimal = Uint128

  // ---------------------------------------------------------------- address order

  /** `a` sorts strictly before `b`. */
  predicate Below(a: Addr, b: Addr)
    decreases |a|
  {
    b != [] && (a == [] || a[0] < b[0] || (a[0] == b[0] && Below(a[1..], b[1..])))
  }

  lemma {:induction false} BelowIrreflexive(a: Addr)
    ensures !Below(a, a)
    decreases |a|
  {
    if a != [] {
      BelowIrreflexive(a[1..]);
    }
  }

  lemma {:induction false} BelowTransitive(a: Addr, b: Addr, c: Addr)
    requires Below(a, b) && Below(b, c)
    ensures Below(a, c)
    decreases |a|
  {
    if a != [] && a[0] == b[0] && b[0] == c[0] {
      BelowTransitive(a[1..], b[1..], c[1..]);
    }
  }

  lemma {:induction false} BelowTotal(a: Addr, b: Addr)
    ensures a == b || Below(a, b) || Below(b, a)
    decreases |a|
  {
    if a != [] && b != [] && a[0] == b[0] {
      BelowTotal(a[1..], b[1..]);
      if a[1..] == b[1..] {
        assert a == [a[0]] + a[1..] && b == [b[0]] + b[1..];
      }
    }
  }

  // ---------------------------------------------------------------- the store

  /** Entries in strictly ascending address order: one entry per address. */
  predicate Sorted(entries: seq<(Addr, Decimal)>) {
    forall i, j :: 0 <= i < j < |entries| ==> Below(entries[i].0, entries[j].0)
  }

  /** What the store holds at all times: sorted entries whose weights are at most one. */
  predicate StoredWeights(entries: seq<(Addr, Decimal)>) {
    Sorted(entries) && forall i :: 0 <= i < |entries| ==> entries[i].1 <= ONE
  }

  /** The entries as a map; when an address occurs twice the later entry wins. */
  function AsMap(entries: seq<(Addr, Decimal)>): map<Addr, Decimal> {
    if entries == [] then map[]
    else AsMap(entries[..|entries| - 1])[entries[|entries| - 1].0 := entries[|entries| - 1].1]
  }

  /** The addresses of the entries, in order. */
  function Keys(entries: seq<(Addr, Decimal)>): (keys: seq<Addr>)
    ensures |keys| == |entries| && forall i :: 0 <= i < |entries| ==> keys[i] == entries[i].0
  {
    seq(|entries|, i requires 0 <= i < |entries| => entries[i].0)
  }

  /** The sum of the weights, as `Iterator::sum` computes it. */
  function SumWeights(entries: seq<(Addr, Decimal)>): nat {
    if entries == [] then 0 else SumWeights(entries[..|entries| - 1]) + entries[|entries| - 1].1
  }

  /** The weight stored for `address`, or zero when there is none. */
  function Weight(entries: seq<(Addr, Decimal)>, address: Addr): Decimal {
    if address in AsMap(entries) then AsMap(entries)[address] else 0
  }

  lemma {:induction false} AsMapCons(x: (Addr, Decimal), rest: seq<(Addr, Decimal)>)
    ensures AsMap([x] + rest) == map[x.0 := x.1] + AsMap(rest)
    decreases |rest|
  {
    if rest != [] {
      var s := [x] + rest;
      assert s[..|s| - 1] == [x] + rest[..|rest| - 1];
      AsMapCons(x, rest[..|rest| - 1]);
    }
  }

  lemma {:induction false} SumCons(x: (Addr, Decimal), rest: seq<(Addr, Decimal)>)
    ensures SumWeights([x] + rest) == x.1 + SumWeights(rest)
    decreases |rest|
  {
    if rest != [] {
      var s := [x] + rest;
      assert s[..|s| - 1] == [x] + rest[..|rest| - 1];
      SumCons(x, rest[..|rest| - 1]);
    }
  }

  /** An address is in the map exactly when some entry has it. */
  lemma {:induction false} InAsMap(entries: seq<(Addr, Decimal)>, address: Addr)
    ensures address in AsMap(entries) <==> address in Keys(entries)
    decreases |entries|
  {
    if entries != [] {
      var prefix := entries[..|entries| - 1];
      InAsMap(prefix, address);
      assert Keys(entries) == Keys(prefix) + [entries[|entries| - 1].0];
    }
  }

  /** In sorted entries every address has exactly the weight of its entry. */
  lemma {:induction false} SortedLookup(entries: seq<(Addr, Decimal)>, i: nat)
    requires Sorted(entries) && i < |entries|
    ensures entries[i].0 in AsMap(entries) && AsMap(entries)[entries[i].0] == entries[i].1
    decreases |entries|
  {
    var last := |entries| - 1;
    if i < last {
      SortedLookup(entries[..last], i);
      BelowIrreflexive(entries[i].0);
    }
  }

  /** Every weight in the map is the weight of some entry. */
  lemma {:induction false} AsMapValues(entries: seq<(Addr, Decimal)>, address: Addr)
    requires address in AsMap(entries)
    ensures exists i :: 0 <= i < |entries| && entries[i] == (address, AsMap(entries)[address])
    decreases |entries|
  {
    var last := |entries| - 1;
    if entries[last].0 != address {
      AsMapValues(entries[..last], address);
      var i :| 0 <= i < last && entries[..last][i] == (address, AsMap(entries[..last])[address]);
      assert entries[i] == entries[..last][i];
    }
  }

  /** In sorted entries the addresses after the first all sort after it. */
  lemma AfterHead(entries: seq<(Addr, Decimal)>, address: Addr)
    requires Sorted(entries) && entries != [] && address in AsMap(entries[1..])
    ensures Below(entries[0].0, address)
  {
    InAsMap(entries[1..], address);
    var j :| 0 <= j < |entries[1..]| && Keys(entries[1..])[j] == address;
    assert entries[j + 1].0 == address;
  }

  /** An address that sorts before the first entry of sorted entries sorts before all of them. */
  lemma BeforeHeadAbsent(entries: seq<(Addr, Decimal)>, address: Addr)
    requires Sorted(entries) && entries != [] && Below(address, entries[0].0)
    ensures address !in AsMap(entries)
    ensures forall a :: a in AsMap(entries) ==> Below(address, a)
  {
    forall a | a in AsMap(entries) ensures Below(address, a) {
      InAsMap(entries, a);
      var j :| 0 <= j < |entries| && Keys(entries)[j] == a;
      if j > 0 {
        BelowTransitive(address, entries[0].0, a);
      }
    }
    InAsMap(entries, address);
    if address in Keys(entries) {
      var j :| 0 <= j < |entries| && Keys(entries)[j] == address;
      if j == 0 {
        BelowIrreflexive(address);
      } else {
        BelowTransitive(address, entries[0].0, entries[j].0);
        BelowIrreflexive(address);
      }
    }
  }

  /** A sorted list stays sorted when an entry below all of its addresses is put in front. */
  lemma SortedCons(x: (Addr, Decimal), rest: seq<(Addr, Decimal)>)
    requires Sorted(rest) && forall a :: a in AsMap(rest) ==> Below(x.0, a)
    ensures Sorted([x] + rest)
  {
    forall j | 0 <= j < |rest|
      ensures Below(x.0, rest[j].0)
    {
      SortedLookup(rest, j);
    }
  }

  /** In sorted entries every address of the tail sorts after the head, which is not among them. */
  lemma TailAfterHead(entries: seq<(Addr, Decimal)>)
    requires Sorted(entries) && entries != []
    ensures forall a :: a in AsMap(entries[1..]) ==> Below(entries[0].0, a)
    ensures entries[0].0 !in AsMap(entries[1..])
  {
    forall a | a in AsMap(entries[1..]) ensures Below(entries[0].0, a) {
      AfterHead(entries, a);
    }
    BelowIrreflexive(entries[0].0);
  }

  /** Saving into the tail of sorted entries keeps every address after the head. */
  lemma SavedAfterHead(entries: seq<(Addr, Decimal)>, address: Addr, weight: Decimal, saved: seq<(Addr, Decimal)>)
    requires Sorted(entries) && entries != [] && Below(entries[0].0, address)
    requires AsMap(saved) == AsMap(entries[1..])[address := weight]
    ensures forall a :: a in AsMap(saved) ==> Below(entries[0].0, a)
  {
    forall a | a in AsMap(saved) ensures Below(entries[0].0, a) {
      if a != address {
        AfterHead(entries, a);
      }
    }
  }

  /**
   * `Map::save` on the ordered store: overwrite the entry for `address`, or
   * insert one at its place in the order.
   */
  function Save(entries: seq<(Addr, Decimal)>, address: Addr, weight: Decimal): (r: seq<(Addr, Decimal)>)
    ensures |entries| <= |r| <= |entries| + 1
    decreases |entries|
  {
    if entries == [] then [(address, weight)]
    else if entries[0].0 == address then [(address, weight)] + entries[1..]
    else if Below(address, entries[0].0) then [(address, weight)] + entries
    else [entries[0]] + Save(entries[1..], address, weight)
  }

  /** Overwriting a key that the rest of the map lacks is the same as replacing the singleton. */
  lemma ReplaceSingleton(address: Addr, old_: Decimal, weight: Decimal, rest: map<Addr, Decimal>)
    requires address !in rest
    ensures (map[address := old_] + rest)[address := weight] == map[address := weight] + rest
  {
  }

  /** A fresh key can be added in front of or after the others alike. */
  lemma AddFresh(address: Addr, weight: Decimal, rest: map<Addr, Decimal>)
    requires address !in rest
    ensures map[address := weight] + rest == rest[address := weight]
  {
  }

  /** Updating a key other than the first commutes with adding the first. */
  lemma UpdateBehind(key: Addr, value: Decimal, address: Addr, weight: Decimal, rest: map<Addr, Decimal>)
    requires key != address
    ensures map[key := value] + rest[address := weight] == (map[key := value] + rest)[address := weight]
  {
  }

  /** Saving makes `address` hold `weight`, whether it was stored before or not, and touches nothing else. */
  lemma {:induction false} SaveUpdates(entries: seq<(Addr, Decimal)>, address: Addr, weight: Decimal)
    requires Sorted(entries)
    ensures AsMap(Save(entries, address, weight)) == AsMap(entries)[address := weight]
    decreases |entries|
  {
    if entries != [] {
      var head := entries[0];
      var tail := entries[1..];
      assert entries == [head] + tail;
      AsMapCons(head, tail);
      if head.0 == address {
        SaveReplacesHead(entries, address, weight);
      } else if Below(address, head.0) {
        SaveInsertsFront(entries, address, weight);
      } else {
        var saved := Save(tail, address, weight);
        assert Save(entries, address, weight) == [head] + saved;
        SaveUpdates(tail, address, weight);
        AsMapCons(head, saved);
        UpdateBehind(head.0, head.1, address, weight, AsMap(tail));
      }
    }
  }

  /** Saving the first stored address replaces its weight. */
  lemma SaveReplacesHead(entries: seq<(Addr, Decimal)>, address: Addr, weight: Decimal)
    requires Sorted(entries) && entries != [] && entries[0].0 == address
    ensures AsMap(Save(entries, address, weight)) == AsMap(entries)[address := weight]
  {
    var tail := entries[1..];
    assert entries == [entries[0]] + tail;
    AsMapCons(entries[0], tail);
    AsMapCons((address, weight), tail);
    TailAfterHead(entries);
    ReplaceSingleton(address, entries[0].1, weight, AsMap(tail));
  }

  /** Saving an address below every stored one puts it in front. */
  lemma SaveInsertsFront(entries: seq<(Addr, Decimal)>, address: Addr, weight: Decimal)
    requires Sorted(entries) && entries != [] && entries[0].0 != address && Below(address, entries[0].0)
    ensures AsMap(Save(entries, address, weight)) == AsMap(entries)[address := weight]
  {
    AsMapCons((address, weight), entries);
    BeforeHeadAbsent(entries, address);
    AddFresh(address, weight, AsMap(entries));
  }

  /** Saving keeps the store in ascending order. */
  lemma {:induction false} SaveSorted(entries: seq<(Addr, Decimal)>, address: Addr, weight: Decimal)
    requires Sorted(entries)
    ensures Sorted(Save(entries, address, weight))
    decreases |entries|
  {
    if entries != [] {
      var head := entries[0];
      var tail := entries[1..];
      if head.0 == address {
        TailAfterHead(entries);
        SortedCons((address, weight), tail);
      } else if Below(address, head.0) {
        BeforeHeadAbsent(entries, address);
        SortedCons((address, weight), entries);
      } else {
        var saved := Save(tail, address, weight);
        SaveSorted(tail, address, weight);
        SaveUpdates(tail, address, weight);
        BelowTotal(address, head.0);
        SavedAfterHead(entries, address, weight, saved);
        SortedCons(head, saved);
      }
    }
  }

  /** Saving changes the total weight by the difference between the new and the old weight. */
  lemma {:induction false} SaveSum(entries: seq<(Addr, Decimal)>, address: Addr, weight: Decimal)
    requires Sorted(entries)
    ensures SumWeights(Save(entries, address, weight)) + Weight(entries, address) == SumWeights(entries) + weight
    decreases |entries|
  {
    if entries != [] {
      var head := entries[0];
      var tail := entries[1..];
      assert entries == [head] + tail;
      AsMapCons(head, tail);
      SumCons(head, tail);
      if head.0 == address {
        SumCons((address, weight), tail);
        TailAfterHead(entries);
        assert Weight(entries, address) == head.1;
      } else if Below(address, head.0) {
        SumCons((address, weight), entries);
        BeforeHeadAbsent(entries, address);
      } else {
        SaveSum(tail, address, weight);
        SumCons(head, Save(tail, address, weight));
        assert Weight(entries, address) == Weight(tail, address);
      }
    }
  }

  /** The three facts about saving together. */
  lemma SaveSpec(entries: seq<(Addr, Decimal)>, address: Addr, weight: Decimal)
    requires Sorted(entries)
    ensures Sorted(Save(entries, address, weight))
    ensures AsMap(Save(entries, address, weight)) == AsMap(entries)[address := weight]
    ensures SumWeights(Save(entries, address, weight)) + Weight(entries, address) == SumWeights(entries) + weight
  {
    SaveUpdates(entries, address, weight);
    SaveSorted(entries, address, weight);
    SaveSum(entries, address, weight);
  }

  /** The store after saving every input entry in order. */
  function SaveAll(entries: seq<(Addr, Decimal)>, input: seq<(Addr, Decimal)>): (r: seq<(Addr, Decimal)>)
    requires Sorted(entries)
    ensures Sorted(r)
    ensures AsMap(r) == AsMap(entries) + AsMap(input)
    ensures SumWeights(r) <= SumWeights(entries) + SumWeights(input)
    decreases |input|
  {
    if input == [] then entries
    else
      var last := input[|input| - 1];
      var before := SaveAll(entries, input[..|input| - 1]);
      SaveSpec(before, last.0, last.1);
      Save(before, last.0, last.1)
  }

  lemma {:induction false} WeightAtMostSum(input: seq<(Addr, Decimal)>, i: nat)
    requires i < |input|
    ensures input[i].1 <= SumWeights(input)
    decreases |input|
  {
    if i < |input| - 1 {
      WeightAtMostSum(input[..|input| - 1], i);
    }
  }

  /** What `set_weights` rejects. */
  datatype WeightsError =
    | WeightsMustAddUpToOne
    | SumOverflow  // the Decimal sum panics past the 128-bit range

  class MassDistribute {
    /** The weights store, in ascending address order. */
    var weights: seq<(Addr, Decimal)>

    ghost predicate Valid()
      reads this
    {
      StoredWeights(weights)
    }

    /** `MassDistribute::new`: a handle on an empty store. */
    constructor()
      ensures Valid() && weights == []
    {
      weights := [];
    }

    /**
     * `set_weights`: sum the input; unless the sum is exactly one, fail and
     * write nothing; otherwise save every input entry in order, so the last
     * weight given for an address wins and addresses not in the input keep
     * their weights.
     */
    method SetWeights(input: seq<(Addr, Decimal)>) returns (r: Result<(), WeightsError>)
      requires Valid()
      modifies this
      ensures Valid()
      ensures r.Ok? <==> SumWeights(input) == ONE
      ensures r == Err(SumOverflow) <==> SumWeights(input) > MAX_U128
      ensures r.Err? ==> weights == old(weights)
      ensures r.Ok? ==> weights == SaveAll(old(weights), input)
      ensures r.Ok? ==> AsMap(weights) == AsMap(old(weights)) + AsMap(input)
      ensures r.Ok? ==> SumWeights(weights) <= SumWeights(old(weights)) + ONE
    {
      var total := 0;
      var i := 0;
      while i < |input|
        invariant 0 <= i <= |input|
        invariant total == SumWeights(input[..i]) <= MAX_U128
      {
        assert input[..i + 1][..i] == input[..i];
        if total + input[i].1 > MAX_U128 {
          SumOfPrefixAtMost(input, i + 1);
          return Err(SumOverflow);
        }
        total := total + input[i].1;
        i := i + 1;
      }
      assert input[..i] == input;
      if total != ONE {
        return Err(WeightsMustAddUpToOne);
      }
      ghost var before := weights;
      i := 0;
      while i < |input|
        invariant 0 <= i <= |input|
        invariant Sorted(weights) && weights == SaveAll(before, input[..i])
        invariant forall j :: 0 <= j < |weights| ==> weights[j].1 <= ONE
      {
        assert input[..i + 1][..i] == input[..i];
        WeightAtMostSum(input, i);
        ghost var previous := weights;
        SaveSpec(weights, input[i].0, input[i].1);
        weights := Save(weights, input[i].0, input[i].1);
        forall j | 0 <= j < |weights| ensures weights[j].1 <= ONE {
          SortedLookup(weights, j);
          if weights[j].0 != input[i].0 {
            AsMapValues(previous, weights[j].0);
          }
        }
        i := i + 1;
      }
      assert input[..i] == input;
      r := Ok(());
    }
  }

  lemma {:induction false} SumOfPrefixAtMost(input: seq<(Addr, Decimal)>, n: nat)
    requires n <= |input|
    ensures SumWeights(input[..n]) <= SumWeights(input)
    decreases |input| - n
  {
    if n < |input| {
      SumOfPrefixAtMost(input, n + 1);
      assert input[..n + 1][..n] == input[..n];
    } else {
      assert input[..n] == input;
    }
  }

  // ---------------------------------------------------------------- shares and transfers

  /**
   * `get_share`: the amount times the address's weight, rounded down; an
   * address without a stored weight gets nothing.
   */
  function GetShare(weights: seq<(Addr, Decimal)>, address: Addr, amount: Uint128): (share: Uint128)
    requires StoredWeights(weights)
    ensures share * ONE <= amount * Weight(weights, address) < (share + 1) * ONE
    ensures address !in AsMap(weights) ==> share == 0
    ensures share <= amount
  {
    var w := Weight(weights, address);
    WeightAtMostOne(weights, address);
    DivisionBounds(amount * w, amount, w);
    amount * w / ONE
  }

  lemma WeightAtMostOne(weights: seq<(Addr, Decimal)>, address: Addr)
    requires StoredWeights(weights)
    ensures Weight(weights, address) <= ONE
  {
    if address in AsMap(weights) {
      AsMapValues(weights, address);
    }
  }

  lemma DivisionBounds(product: nat, amount: nat, w: nat)
    requires product == amount * w && w <= ONE
    ensures (product / ONE) * ONE <= product < (product / ONE + 1) * ONE
    ensures product / ONE <= amount
  {
    assert product <= amount * ONE;
  }

  /** The cw20 `Transfer` execute message. */
  datatype Cw20ExecuteMsg = Cw20Transfer(recipient: Addr, amount: Uint128)

  /** The two messages the splitter emits: a bank send, or an execute on a cw20 token contract. */
  datatype CosmosMsg =
    | BankSend(toAddress: Addr, coins: seq<Coin>)
    | WasmExecute(contractAddr: Addr, msg: Cw20ExecuteMsg, funds: seq<Coin>)

  /** Who a message pays. */
  function Recipient(m: CosmosMsg): Addr {
    match m
    case BankSend(to, _) => to
    case WasmExecute(_, transfer, _) => transfer.recipient
  }

  /** What a message pays (the first coin of a bank send). */
  function Paid(m: CosmosMsg): nat {
    match m
    case BankSend(_, coins) => if coins == [] then 0 else coins[0].amount
    case WasmExecute(_, transfer, _) => transfer.amount
  }

  function Recipients(msgs: seq<CosmosMsg>): (rs: seq<Addr>)
    ensures |rs| == |msgs| && forall i :: 0 <= i < |msgs| ==> rs[i] == Recipient(msgs[i])
  {
    seq(|msgs|, i requires 0 <= i < |msgs| => Recipient(msgs[i]))
  }

  /** The total a list of messages pays. */
  function TotalPaid(msgs: seq<CosmosMsg>): nat {
    if msgs == [] then 0 else TotalPaid(msgs[..|msgs| - 1]) + Paid(msgs[|msgs| - 1])
  }

  /**
   * What every emitted list of transfers satisfies: one message per stored
   * address, in ascending address order, each paying that address its share.
   */
  ghost predicate PaysEachShareInOrder(weights: seq<(Addr, Decimal)>, amount: Uint128, msgs: seq<CosmosMsg>)
    requires StoredWeights(weights)
  {
    && |msgs| == |weights|
    && (forall i, j :: 0 <= i < j < |msgs| ==> Below(Recipient(msgs[i]), Recipient(msgs[j])))
    && (forall a :: a in AsMap(weights) <==> a in Recipients(msgs))
    && (forall i :: 0 <= i < |msgs| ==> Paid(msgs[i]) == GetShare(weights, Recipient(msgs[i]), amount))
  }

  lemma ShapedByKeys(weights: seq<(Addr, Decimal)>, amount: Uint128, msgs: seq<CosmosMsg>)
    requires StoredWeights(weights) && |msgs| == |weights|
    requires forall i :: 0 <= i < |msgs| ==> Recipient(msgs[i]) == weights[i].0
    requires forall i :: 0 <= i < |msgs| ==> Paid(msgs[i]) == GetShare(weights, weights[i].0, amount)
    ensures PaysEachShareInOrder(weights, amount, msgs)
  {
    assert Recipients(msgs) == Keys(weights);
    forall a ensures a in AsMap(weights) <==> a in Recipients(msgs) {
      InAsMap(weights, a);
    }
  }

  /** `distribute_cw20`: a cw20 `Transfer` of each stored address's share, executed on the token contract. */
  function DistributeCw20(weights: seq<(Addr, Decimal)>, amount: Uint128, token: Addr): (msgs: seq<CosmosMsg>)
    requires StoredWeights(weights)
    ensures PaysEachShareInOrder(weights, amount, msgs)
    ensures forall i :: 0 <= i < |msgs| ==> msgs[i].WasmExecute? && msgs[i].contractAddr == token && msgs[i].funds == []
  {
    var msgs := seq(|weights|, i requires 0 <= i < |weights| =>
      WasmExecute(token, Cw20Transfer(weights[i].0, GetShare(weights, weights[i].0, amount)), []));
    ShapedByKeys(weights, amount, msgs);
    msgs
  }

  /** `distribute_native`: a bank send of each stored address's share, as one coin of `denom`. */
  function DistributeNative(weights: seq<(Addr, Decimal)>, amount: Uint128, denom: string): (msgs: seq<CosmosMsg>)
    requires StoredWeights(weights)
    ensures PaysEachShareInOrder(weights, amount, msgs)
    ensures forall i :: 0 <= i < |msgs| ==> msgs[i].BankSend? && |msgs[i].coins| == 1 && msgs[i].coins[0].denom == denom
  {
    var msgs := seq(|weights|, i requires 0 <= i < |weights| =>
      BankSend(weights[i].0, [Coin(denom, GetShare(weights, weights[i].0, amount))]));
    ShapedByKeys(weights, amount, msgs);
    msgs
  }

  /** `distribute`: the denomination picks bank sends or cw20 transfers. */
  function Distribute(weights: seq<(Addr, Decimal)>, amount: Uint128, denom: Denom): (msgs: seq<CosmosMsg>)
    requires StoredWeights(weights)
    ensures PaysEachShareInOrder(weights, amount, msgs)
    ensures denom.Native? ==> forall i :: 0 <= i < |msgs| ==> msgs[i].BankSend? && msgs[i].coins == [Coin(denom.name, Paid(msgs[i]))]
    ensures denom.Cw20? ==> forall i :: 0 <= i < |msgs| ==> msgs[i] == WasmExecute(denom.token, Cw20Transfer(Recipient(msgs[i]), Paid(msgs[i])), [])
  {
    match denom
    case Cw20(token) => DistributeCw20(weights, amount, token)
    case Native(name) => DistributeNative(weights, amount, name)
  }

  // ---------------------------------------------------------------- properties

  /**
   * The denomination changes only the shape of the messages: a native and a
   * cw20 distribution pay the same addresses the same amounts in the same order.
   */
  lemma DenomOnlyChangesShape(weights: seq<(Addr, Decimal)>, amount: Uint128, name: string, token: Addr)
    requires StoredWeights(weights)
    ensures var native := Distribute(weights, amount, Native(name));
      var cw20 := Distribute(weights, amount, Cw20(token));
      |native| == |cw20|
      && forall i :: 0 <= i < |native| ==> Recipient(native[i]) == Recipient(cw20[i]) && Paid(native[i]) == Paid(cw20[i])
  {
    var native := Distribute(weights, amount, Native(name));
    var cw20 := Distribute(weights, amount, Cw20(token));
    forall i | 0 <= i < |native|
      ensures Recipient(native[i]) == Recipient(cw20[i])
    {
      SortedOrderIsUnique(weights, amount, native, cw20, i);
    }
  }

  /** Two message lists that both pay each share in order pay the same addresses at each position. */
  lemma SortedOrderIsUnique(weights: seq<(Addr, Decimal)>, amount: Uint128, xs: seq<CosmosMsg>, ys: seq<CosmosMsg>, i: nat)
    requires StoredWeights(weights)
    requires PaysEachShareInOrder(weights, amount, xs) && PaysEachShareInOrder(weights, amount, ys)
    requires i < |xs|
    ensures Recipient(xs[i]) == Recipient(ys[i])
  {
    forall k | 0 <= k < |xs|
      ensures Recipient(xs[k]) == weights[k].0 && Recipient(ys[k]) == weights[k].0
    {
      RecipientIsKey(weights, amount, xs, k);
      RecipientIsKey(weights, amount, ys, k);
    }
  }

  /**
   * In a list that pays each share in order, the k-th message pays the k-th
   * stored address: both lists are the stored addresses in ascending order.
   */
  lemma {:induction false} RecipientIsKey(weights: seq<(Addr, Decimal)>, amount: Uint128, msgs: seq<CosmosMsg>, k: nat)
    requires StoredWeights(weights) && PaysEachShareInOrder(weights, amount, msgs) && k < |msgs|
    ensures Recipient(msgs[k]) == weights[k].0
    decreases k
  {
    // the addresses below msgs[k]'s recipient are exactly msgs[0..k] and weights[0..k]
    forall j | 0 <= j < k ensures Recipient(msgs[j]) == weights[j].0 {
      RecipientIsKey(weights, amount, msgs, j);
    }
    var a := Recipient(msgs[k]);
    InAsMap(weights, a);
    assert a in Recipients(msgs);
    var p :| 0 <= p < |weights| && weights[p].0 == a;
    if p < k {
      assert Recipient(msgs[p]) == a;
      BelowIrreflexive(a);
    } else if p > k {
      var b := weights[k].0;
      SortedLookup(weights, k);
      InAsMap(weights, b);
      assert b in Recipients(msgs);
      var q :| 0 <= q < |msgs| && Recipients(msgs)[q] == b;
      if q < k {
        assert b == weights[q].0;
        BelowIrreflexive(b);
      } else if q == k {
      } else {
        // b sorts after a in msgs but before it in weights
        assert Below(a, b);
        assert Below(b, a);
        BelowTransitive(a, b, a);
        BelowIrreflexive(a);
      }
    }
  }

  /**
   * The shares never add up to more than the amount while the stored weights
   * add up to at most one, since each share is rounded down.
   */
  lemma SharesWithinAmount(weights: seq<(Addr, Decimal)>, amount: Uint128, denom: Denom)
    requires StoredWeights(weights) && SumWeights(weights) <= ONE
    ensures TotalPaid(Distribute(weights, amount, denom)) <= amount
  {
    var msgs := Distribute(weights, amount, denom);
    forall k | 0 <= k < |msgs| ensures Paid(msgs[k]) * ONE <= amount * weights[k].1 {
      RecipientIsKey(weights, amount, msgs, k);
      SortedLookup(weights, k);
    }
    PaidPrefixBound(weights, amount, msgs, |msgs|);
    assert msgs[..|msgs|] == msgs && weights[..|weights|] == weights;
    CancelWeight(TotalPaid(msgs), amount, SumWeights(weights));
  }

  /** Adding one rounded-down share to a bounded prefix keeps the bound. */
  lemma AddShareBound(paid: nat, share: nat, amount: nat, sum: nat, w: nat)
    requires paid * ONE <= amount * sum && share * ONE <= amount * w
    ensures (paid + share) * ONE <= amount * (sum + w)
  {
    assert amount * (sum + w) == amount * sum + amount * w;
  }

  /** A total whose scaled value stays within `amount` times a weight of at most one is at most `amount`. */
  lemma CancelWeight(total: nat, amount: nat, sum: nat)
    requires total * ONE <= amount * sum && sum <= ONE
    ensures total <= amount
  {
    assert amount * sum <= amount * ONE;
  }

  /** When each message pays at most its weight's part of `amount`, so do the first `n` together. */
  lemma {:induction false} PaidPrefixBound(weights: seq<(Addr, Decimal)>, amount: Uint128, msgs: seq<CosmosMsg>, n: nat)
    requires |msgs| == |weights| && n <= |msgs|
    requires forall k :: 0 <= k < |msgs| ==> Paid(msgs[k]) * ONE <= amount * weights[k].1
    ensures TotalPaid(msgs[..n]) * ONE <= amount * SumWeights(weights[..n])
  {
    if n > 0 {
      PaidPrefixBound(weights, amount, msgs, n - 1);
      assert msgs[..n][..n - 1] == msgs[..n - 1];
      assert weights[..n][..n - 1] == weights[..n - 1];
      AddShareBound(TotalPaid(msgs[..n - 1]), Paid(msgs[n - 1]), amount, SumWeights(weights[..n - 1]), weights[n - 1].1);
    }
  }

  /**
   * On an empty store, a successful `set_weights` leaves weights adding up to
   * at most one, so the transfers that follow never pay out more than the amount.
   */
  lemma FreshWeightsNeverOverpay(input: seq<(Addr, Decimal)>, amount: Uint128, denom: Denom)
    requires SumWeights(input) == ONE
    ensures StoredWeights(SaveAll([], input))
    ensures TotalPaid(Distribute(SaveAll([], input), amount, denom)) <= amount
  {
    var stored := SaveAll([], input);
    forall j | 0 <= j < |stored| ensures stored[j].1 <= ONE {
      SortedLookup(stored, j);
      AsMapValues(input, stored[j].0);
      var i :| 0 <= i < |input| && input[i] == (stored[j].0, AsMap(input)[stored[j].0]);
      WeightAtMostSum(input, i);
    }
    SharesWithinAmount(stored, amount, denom);
  }

  /** The three addresses of the worked example, in ascending order. */
  lemma ExampleAddressOrder()
    ensures Below("addr1", "addr2") && Below("addr2", "addr3")
  {
    assert "addr1"[1..] == "ddr1" && "addr2"[1..] == "ddr2" && "addr3"[1..] == "ddr3";
    assert "ddr1"[1..] == "dr1" && "ddr2"[1..] == "dr2" && "ddr3"[1..] == "dr3";
    assert "dr1"[1..] == "r1" && "dr2"[1..] == "r2" && "dr3"[1..] == "r3";
    assert "r1"[1..] == "1" && "r2"[1..] == "2" && "r3"[1..] == "3";
  }

  /** Saving three entries into an empty store saves them one after the other. */
  lemma SaveAllThree(x: (Addr, Decimal), y: (Addr, Decimal), z: (Addr, Decimal))
    ensures SaveAll([], [x, y, z]) == Save(Save(Save([], x.0, x.1), y.0, y.1), z.0, z.1)
    ensures SumWeights([x, y, z]) == x.1 + y.1 + z.1
  {
    var input := [x, y, z];
    assert input[..2] == [x, y] && [x, y][..1] == [x] && [x][..0] == [];
    assert SaveAll([], [x]) == Save([], x.0, x.1);
    assert SaveAll([], [x, y]) == Save(SaveAll([], [x]), y.0, y.1);
    assert SaveAll([], input) == Save(SaveAll([], [x, y]), z.0, z.1);
  }

  /** Three entries saved in ascending order land in that order. */
  lemma SaveAscending(x: (Addr, Decimal), y: (Addr, Decimal), z: (Addr, Decimal))
    requires Below(x.0, y.0) && Below(y.0, z.0)
    requires !Below(y.0, x.0) && !Below(z.0, x.0) && !Below(z.0, y.0)
    ensures Save(Save(Save([], x.0, x.1), y.0, y.1), z.0, z.1) == [x, y, z]
  {
    BelowIrreflexive(x.0);
    BelowIrreflexive(y.0);
    assert Save([], x.0, x.1) == [x];
    assert Save([x], y.0, y.1) == [x] + Save([], y.0, y.1) == [x, y];
    assert [x, y][1..] == [y];
    assert Save([y], z.0, z.1) == [y] + Save([], z.0, z.1) == [y, z];
    assert Save([x, y], z.0, z.1) == [x] + Save([y], z.0, z.1);
  }

  /** A store of three entries pays each of them, in order, its rounded-down part of the amount. */
  lemma DistributeThree(weights: seq<(Addr, Decimal)>, amount: Uint128, denom: Denom)
    requires StoredWeights(weights) && |weights| == 3
    ensures var msgs := Distribute(weights, amount, denom);
      && |msgs| == 3
      && Recipients(msgs) == [weights[0].0, weights[1].0, weights[2].0]
      && (forall k :: 0 <= k < 3 ==> Paid(msgs[k]) == amount * weights[k].1 / ONE)
  {
    var msgs := Distribute(weights, amount, denom);
    forall k | 0 <= k < 3 ensures Recipient(msgs[k]) == weights[k].0 && Paid(msgs[k]) == amount * weights[k].1 / ONE {
      RecipientIsKey(weights, amount, msgs, k);
      SortedLookup(weights, k);
    }
  }

  /**
   * A fresh store given three ascending addresses whose weights add up to one
   * pays each of them, in that order, its rounded-down part of the amount.
   */
  method SplitThree(x: (Addr, Decimal), y: (Addr, Decimal), z: (Addr, Decimal), amount: Uint128, denom: Denom)
    returns (msgs: seq<CosmosMsg>)
    requires Below(x.0, y.0) && Below(y.0, z.0) && x.1 + y.1 + z.1 == ONE
    ensures |msgs| == 3 && Recipients(msgs) == [x.0, y.0, z.0]
    ensures Paid(msgs[0]) == amount * x.1 / ONE && Paid(msgs[1]) == amount * y.1 / ONE && Paid(msgs[2]) == amount * z.1 / ONE
  {
    BelowTransitive(x.0, y.0, z.0);
    if Below(y.0, x.0) {
      BelowTransitive(x.0, y.0, x.0);
      BelowIrreflexive(x.0);
    }
    if Below(z.0, y.0) {
      BelowTransitive(y.0, z.0, y.0);
      BelowIrreflexive(y.0);
    }
    if Below(z.0, x.0) {
      BelowTransitive(x.0, z.0, x.0);
      BelowIrreflexive(x.0);
    }
    SaveAllThree(x, y, z);
    SaveAscending(x, y, z);
    var store := new MassDistribute();
    var r := store.SetWeights([x, y, z]);
    msgs := Distribute(store.weights, amount, denom);
    DistributeThree(store.weights, amount, denom);
  }

  /** The split of 100 by 60%, 30% and 10%, over a fresh store. */
  method SplitSixtyThirtyTen(denom: Denom) returns (msgs: seq<CosmosMsg>)
    ensures |msgs| == 3
    ensures Recipients(msgs) == ["addr1", "addr2", "addr3"]
    ensures Paid(msgs[0]) == 60 && Paid(msgs[1]) == 30 && Paid(msgs[2]) == 10
  {
    ExampleAddressOrder();
    msgs := SplitThree(("addr1", 600_000_000_000_000_000), ("addr2", 300_000_000_000_000_000), ("addr3", 100_000_000_000_000_000), 100, denom);
  }

  /** 50% and 60% add up to more than one: the store rejects them and keeps what it had. */
  method OverweightRejected() returns (r: Result<(), WeightsError>)
    ensures r == Err(WeightsMustAddUpToOne)
  {
    var store := new MassDistribute();
    var input: seq<(Addr, Decimal)> := [("addr1", 500_000_000_000_000_000), ("addr2", 600_000_000_000_000_000)];
    assert input[..1][..0] == [] && input[..1] == input[..|input| - 1];
    assert SumWeights(input) == 1_100_000_000_000_000_000;
    r := store.SetWeights(input);
    assert r.Err? && r.error != SumOverflow;
  }
}
