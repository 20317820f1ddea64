/**
 The key chain of the seeded sampler (`make_seeded_sampler`, fusion_mlx/_seeded_sampler.py).

 `key`, `split` and `categorical` of the random-number backend are parameters.  Calls of any number of
 samplers, and concurrent calls of one sampler, interleave freely; only the split under the closure's
 lock touches shared state.
 */
module SamplerKeys {
  /** The backend: `W` is a masked, scaled row of log-probabilities. */
  datatype Prng<!K, !W> = Prng(key: nat -> K, split: K -> (K, K), categorical: (W, K) -> nat)

  const KEY_SPACE := 0x1_0000_0000

  /** `seed & 0xFFFFFFFF`, also for negative seeds. */
  function Fold(seed: int): nat { seed % KEY_SPACE }

  /** The key held after `i` splits, and the subkey the split number `i` hands out. */
  function Chain<K, W>(g: Prng<K, W>, k: K, i: nat): K {
    if i == 0 then k else g.split(Chain(g, k, i - 1)).1
  }

  function Subkey<K, W>(g: Prng<K, W>, k: K, i: nat): K { g.split(Chain(g, k, i)).0 }

  /** The tokens a sampler starting at key `k` draws for the rows `ws`, when nobody else is around. */
  function Alone<K, W>(g: Prng<K, W>, k: K, ws: seq<W>): (tokens: seq<nat>)
    ensures |tokens| == |ws|
  {
    if ws == [] then []
    else [g.categorical(ws[0], g.split(k).0)] + Alone(g, g.split(k).1, ws[1..])
  }

  lemma {:induction false} ChainShift<K, W>(g: Prng<K, W>, k: K, i: nat)
    ensures Chain(g, g.split(k).1, i) == Chain(g, k, i + 1)
  {
    if i > 0 { ChainShift(g, k, i - 1); }
  }

  lemma {:induction false} AloneAt<K, W>(g: Prng<K, W>, k: K, ws: seq<W>, i: nat)
    requires i < |ws|
    ensures Alone(g, k, ws)[i] == g.categorical(ws[i], Subkey(g, k, i))
    decreases i
  {
    if i > 0 {
      AloneAt(g, g.split(k).1, ws[1..], i - 1);
      ChainShift(g, k, i - 1);
    }
  }

  // ----- The closure -----

  /** `state` is the one-element list of the closure; `served` counts its calls. */
  class SeededSampler<K, W> {
    var state: K
    ghost const start: K
    ghost var served: seq<W>
    const g: Prng<K, W>

    ghost predicate Valid() reads this { state == Chain(g, start, |served|) }

    constructor (g: Prng<K, W>, seed: int)
      ensures Valid() && this.g == g && start == g.key(Fold(seed)) && served == []
    {
      this.g := g;
      var k := g.key(seed % KEY_SPACE);
      state, start, served := k, k, [];
    }

    method Sample(row: W) returns (token: nat)
      requires Valid()
      modifies this
      ensures Valid() && served == old(served) + [row]
      ensures token == Alone(g, start, served)[|served|-1]
    {
      var (current, next) := g.split(state);
      state := next;
      served := served + [row];
      AloneAt(g, start, served, |served| - 1);
      token := g.categorical(row, current);
    }
  }

  // ----- Many samplers, many concurrent calls -----

  /** `turn` is history: the call was the sampler's `turn`-th to take the lock. */
  datatype Stage<K> = Waiting | Holding(turn: nat, subkey: K) | Done(turn: nat, token: nat)

  datatype Call<K, W> = Call(sampler: nat, row: W, stage: Stage<K>)

  /** `order` is ghost history: for each sampler the calls in the order they took the lock. */
  datatype System<K, W> = System(keys: map<nat, K>, calls: map<nat, Call<K, W>>, order: map<nat, seq<nat>>)

  datatype Event<W> = Start(id: nat, sampler: nat, row: W) | Split(id: nat) | Draw(id: nat)

  predicate CanHappen<K, W>(s: System<K, W>, e: Event<W>) {
    match e
    case Start(id, sampler, _) => id !in s.calls && sampler in s.keys
    case Split(id) =>
      && id in s.calls && s.calls[id].stage.Waiting?
      && s.calls[id].sampler in s.keys && s.calls[id].sampler in s.order
    case Draw(id) => id in s.calls && s.calls[id].stage.Holding?
  }

  function Happen<K, W>(g: Prng<K, W>, s: System<K, W>, e: Event<W>): System<K, W>
    requires CanHappen(s, e)
  {
    match e
    case Start(id, sampler, row) => s.(calls := s.calls[id := Call(sampler, row, Waiting)])
    case Split(id) =>
      var c := s.calls[id];
      var (current, next) := g.split(s.keys[c.sampler]);
      System(s.keys[c.sampler := next], s.calls[id := c.(stage := Holding(|s.order[c.sampler]|, current))],
             s.order[c.sampler := s.order[c.sampler] + [id]])
    case Draw(id) =>
      var c := s.calls[id];
      s.(calls := s.calls[id := c.(stage := Done(c.stage.turn, g.categorical(c.row, c.stage.subkey)))])
  }

  /** One closure per entry of `seeds`, no call yet. */
  ghost predicate Fresh<K, W>(g: Prng<K, W>, seeds: map<nat, int>, s: System<K, W>) {
    && s.keys.Keys == seeds.Keys == s.order.Keys && s.calls == map[]
    && forall i :: i in seeds ==> s.keys[i] == g.key(Fold(seeds[i])) && s.order[i] == []
  }

  ghost predicate Follows<K, W>(g: Prng<K, W>, s: System<K, W>, run: seq<Event<W>>, s': System<K, W>)
    decreases |run|
  {
    if run == [] then s == s'
    else CanHappen(s, run[0]) && Follows(g, Happen(g, s, run[0]), run[1..], s')
  }

  /** Where a call stands: not yet locked, or the `turn`-th to lock and using that subkey. */
  ghost predicate CallOk<K, W>(g: Prng<K, W>, k: K, order: seq<nat>, c: Call<K, W>, id: nat) {
    match c.stage
    case Waiting => id !in order
    case Holding(turn, subkey) => turn < |order| && order[turn] == id && subkey == Subkey(g, k, turn)
    case Done(turn, token) => turn < |order| && order[turn] == id && token == g.categorical(c.row, Subkey(g, k, turn))
  }

  /** The order lists calls of sampler `j`, once each, and the key has advanced that many times. */
  ghost predicate Turns<K, W>(g: Prng<K, W>, k: K, key: K, order: seq<nat>, calls: map<nat, Call<K, W>>, j: nat) {
    && key == Chain(g, k, |order|)
    && (forall i :: 0 <= i < |order| ==> order[i] in calls && calls[order[i]].sampler == j)
    && (forall i, n :: 0 <= i < n < |order| ==> order[i] != order[n])
  }

  ghost predicate OrderOk<K, W>(g: Prng<K, W>, seeds: map<nat, int>, s: System<K, W>) {
    && s.keys.Keys == seeds.Keys == s.order.Keys
    && forall j :: j in seeds ==> Turns(g, g.key(Fold(seeds[j])), s.keys[j], s.order[j], s.calls, j)
  }

  ghost predicate CallsOk<K, W>(g: Prng<K, W>, seeds: map<nat, int>, s: System<K, W>) {
    forall id :: id in s.calls ==>
      var c := s.calls[id];
      c.sampler in seeds && c.sampler in s.order && CallOk(g, g.key(Fold(seeds[c.sampler])), s.order[c.sampler], c, id)
  }

  ghost predicate Inv<K, W>(g: Prng<K, W>, seeds: map<nat, int>, s: System<K, W>) {
    OrderOk(g, seeds, s) && CallsOk(g, seeds, s)
  }

  lemma InvHappen<K, W>(g: Prng<K, W>, seeds: map<nat, int>, s: System<K, W>, e: Event<W>)
    requires Inv(g, seeds, s) && CanHappen(s, e)
    ensures Inv(g, seeds, Happen(g, s, e))
  {
    match e {
      case Start(id, sampler, _) =>
        assert Turns(g, g.key(Fold(seeds[sampler])), s.keys[sampler], s.order[sampler], s.calls, sampler);
        assert id !in s.order[sampler];
      case Split(id) =>
        SplitKeepsOrder(g, seeds, s, id);
        SplitKeepsCalls(g, seeds, s, id);
      case Draw(id) =>
        DrawKeepsCalls(g, seeds, s, id);
    }
  }

  lemma SplitKeepsOrder<K, W>(g: Prng<K, W>, seeds: map<nat, int>, s: System<K, W>, id: nat)
    requires Inv(g, seeds, s) && CanHappen(s, Split(id))
    ensures OrderOk(g, seeds, Happen(g, s, Split(id)))
  {
    var s', j := Happen(g, s, Split(id)), s.calls[id].sampler;
    assert CallOk(g, g.key(Fold(seeds[j])), s.order[j], s.calls[id], id);
    forall n | n in seeds ensures Turns(g, g.key(Fold(seeds[n])), s'.keys[n], s'.order[n], s'.calls, n) {
      assert Turns(g, g.key(Fold(seeds[n])), s.keys[n], s.order[n], s.calls, n);
    }
  }

  lemma SplitKeepsCalls<K, W>(g: Prng<K, W>, seeds: map<nat, int>, s: System<K, W>, id: nat)
    requires Inv(g, seeds, s) && CanHappen(s, Split(id))
    ensures CallsOk(g, seeds, Happen(g, s, Split(id)))
  {
    var s', j := Happen(g, s, Split(id)), s.calls[id].sampler;
    forall x | x in s'.calls
      ensures var c := s'.calls[x];
              && c.sampler in seeds && c.sampler in s'.order
              && CallOk(g, g.key(Fold(seeds[c.sampler])), s'.order[c.sampler], c, x)
    {
      assert CallOk(g, g.key(Fold(seeds[s.calls[x].sampler])), s.order[s.calls[x].sampler], s.calls[x], x);
    }
  }

  lemma DrawKeepsCalls<K, W>(g: Prng<K, W>, seeds: map<nat, int>, s: System<K, W>, id: nat)
    requires Inv(g, seeds, s) && CanHappen(s, Draw(id))
    ensures Inv(g, seeds, Happen(g, s, Draw(id)))
  {
    assert CallOk(g, g.key(Fold(seeds[s.calls[id].sampler])), s.order[s.calls[id].sampler], s.calls[id], id);
  }

  lemma {:induction false} InvFollows<K, W>(g: Prng<K, W>, seeds: map<nat, int>, s: System<K, W>,
                                            run: seq<Event<W>>, s': System<K, W>)
    requires Inv(g, seeds, s) && Follows(g, s, run, s')
    ensures Inv(g, seeds, s')
    decreases |run|
  {
    if run != [] {
      InvHappen(g, seeds, s, run[0]);
      InvFollows(g, seeds, Happen(g, s, run[0]), run[1..], s');
    }
  }

  /** The rows one sampler was called with, in the order its calls took the lock. */
  ghost function Rows<K, W>(s: System<K, W>, j: nat): seq<W>
    requires j in s.order && forall i :: 0 <= i < |s.order[j]| ==> s.order[j][i] in s.calls
  {
    seq(|s.order[j]|, i requires 0 <= i < |s.order[j]| => s.calls[s.order[j][i]].row)
  }

  /**
   In every interleaving, each sampler's finished calls drew the tokens the sampler yields alone on its
   own rows; no call shares a turn, so consecutive calls use consecutive subkeys of the chain.
   */
  lemma StreamsAreIndependent<K, W>(g: Prng<K, W>, seeds: map<nat, int>, s: System<K, W>, run: seq<Event<W>>,
                                    s': System<K, W>, j: nat, i: nat)
    requires Fresh(g, seeds, s) && Follows(g, s, run, s') && j in seeds
    ensures j in s'.order && forall k :: 0 <= k < |s'.order[j]| ==> s'.order[j][k] in s'.calls
    ensures i < |s'.order[j]| ==>
              var c := s'.calls[s'.order[j][i]];
              && !c.stage.Waiting?
              && (c.stage.Holding? ==> c.stage.subkey == Subkey(g, g.key(Fold(seeds[j])), i))
              && (c.stage.Done? ==> c.stage.token == Alone(g, g.key(Fold(seeds[j])), Rows(s', j))[i])
    ensures forall k :: 0 <= k < |s'.order[j]| && k != i && i < |s'.order[j]| ==> s'.order[j][k] != s'.order[j][i]
  {
    InvFollows(g, seeds, s, run, s');
    if i < |s'.order[j]| {
      var id := s'.order[j][i];
      assert CallOk(g, g.key(Fold(seeds[j])), s'.order[j], s'.calls[id], id);
      AloneAt(g, g.key(Fold(seeds[j])), Rows(s', j), i);
    }
  }

  /** A seed that fits 32 bits is its own key argument; any other stands for the one it is congruent to. */
  lemma FoldsTo32Bits(seed: int, k: nat)
    requires k < 0x1_0000_0000
    ensures Fold(seed) == k <==> exists n: int :: seed == k + n * 0x1_0000_0000
    ensures Fold(k) == k
  {
    if Fold(seed) == k {
      assert seed == k + (seed / 0x1_0000_0000) * 0x1_0000_0000;
    }
    forall n: int | seed == k + n * 0x1_0000_0000 ensures Fold(seed) == k {
      Modulo(k, n, 0x1_0000_0000);
    }
  }

  /** A call that is started, takes the lock and draws gets its sampler's next token and advances only its key. */
  lemma OneCall<K, W>(g: Prng<K, W>, s: System<K, W>, id: nat, sampler: nat, row: W)
    requires id !in s.calls && sampler in s.keys && sampler in s.order
    ensures CanHappen(s, Start(id, sampler, row))
    ensures var a := Happen(g, s, Start(id, sampler, row));
            && CanHappen(a, Split(id))
            && var b := Happen(g, a, Split(id));
               && CanHappen(b, Draw(id))
               && var c, (current, next) := Happen(g, b, Draw(id)), g.split(s.keys[sampler]);
                  && c.keys == s.keys[sampler := next]
                  && c.calls == s.calls[id := Call(sampler, row, Done(|s.order[sampler]|, g.categorical(row, current)))]
                  && c.order == s.order[sampler := s.order[sampler] + [id]]
  {
  }

  /** Seeds that agree modulo 2^32 give the same stream. */
  lemma SeedsFold<K, W>(g: Prng<K, W>, seed: int, n: int, ws: seq<W>)
    ensures Fold(seed + n * KEY_SPACE) == Fold(seed)
    ensures Alone(g, g.key(Fold(seed + n * KEY_SPACE)), ws) == Alone(g, g.key(Fold(seed)), ws)
  {
    assert (seed + n * KEY_SPACE) % KEY_SPACE == seed % KEY_SPACE by { Modulo(seed, n, KEY_SPACE); }
  }

  lemma {:induction false} Modulo(a: int, n: int, m: int)
    requires m > 0
    ensures (a + n * m) % m == a % m
  {
    var q, r := a / m, a % m;
    var q', r' := (a + n * m) / m, (a + n * m) % m;
    assert a == q * m + r && a + n * m == q' * m + r';
    assert r' - r == (q + n - q') * m by {
      assert (q + n - q') * m == q * m + n * m - q' * m;
    }
    var d := q + n - q';
    assert d >= 1 ==> d * m >= m;
    assert d <= -1 ==> d * m <= -m;
  }
}
