/** Setting up a port's queues, and the queue that packets leave by. Queue numbers
    are u16 and wrap as an unchecked build does. */
module TransmitQueue {
  import opened Machine

  /** Bitwise exclusive or. */
  function BitXor(a: nat, b: nat): nat
    decreases a + b
  {
    if a == 0 && b == 0 then 0 else 2 * BitXor(a / 2, b / 2) + (a % 2 + b % 2) % 2
  }

  lemma {:induction false} BitXorZero(a: nat)
    ensures BitXor(a, 0) == a
  {
    if a > 0 {
      BitXorZero(a / 2);
    }
  }

  /** The queue packets leave by on the core that receives from queue `q`. */
  function OutQueue(q: nat): nat {
    BitXor(q, 1)
  }

  lemma LowestBit(q: nat)
    ensures OutQueue(q) == if q % 2 == 0 then q + 1 else q - 1
  {
    BitXorZero(q / 2);
    assert BitXor(q, 1) == 2 * (q / 2) + (q % 2 + 1) % 2;
  }

  /** Queues pair up as 0 with 1, 2 with 3 and so on: the pairing is an involution
      without fixed points. */
  lemma OutQueueInvolution(q: nat)
    ensures OutQueue(q) != q && OutQueue(OutQueue(q)) == q
  {
    LowestBit(q);
    LowestBit(OutQueue(q));
  }

  /** Every queue below `n` pairs with a queue below `n`. */
  ghost predicate Paired(n: nat) {
    forall q: nat :: q < n ==> OutQueue(q) < n
  }

  lemma AllPaired(n: nat)
    requires n % 2 == 0
    ensures forall q: nat :: q < n ==> OutQueue(q) < n && OutQueue(q) != q
  {
    forall q: nat | q < n
      ensures OutQueue(q) < n && OutQueue(q) != q
    {
      LowestBit(q);
    }
  }

  /** The pairing stays within the queues exactly when their number is even. */
  lemma PairedIff(n: nat)
    ensures Paired(n) <==> n % 2 == 0
  {
    if n % 2 == 0 {
      AllPaired(n);
    } else {
      LowestBit(n - 1);
      assert OutQueue(n - 1) == n;
    }
  }

  /** `n_cores`: the number of cores rounded up to an even number. */
  function Rounded(numCores: nat): nat
    requires numCores < U16_RANGE
  {
    if numCores % 2 == 1 then (numCores + 1) % U16_RANGE else numCores
  }

  /** What the device answers to the calls of `configure`, as far as it is free to:
      a queue beyond the number it was configured with it refuses in any case. */
  datatype Answers = Answers(device: bool, rx: set<nat>, tx: set<nat>, promiscuous: bool)

  /** The device accepts every queue below `n`, in both directions. */
  predicate Accepts(answers: Answers, n: nat) {
    forall q: nat :: q < n ==> q in answers.rx && q in answers.tx
  }

  /** `qs` are the queues below `n`. */
  ghost predicate FirstQueues(qs: set<nat>, n: nat) {
    forall q: nat :: q in qs <==> q < n
  }

  class Port {
    /** How many queues the device was configured with, and those set up since. */
    var configured: nat
    var rx: set<nat>
    var tx: set<nat>

    constructor ()
      ensures configured == 0 && rx == {} && tx == {}
    {
      configured, rx, tx := 0, {}, {};
    }

    /** `rte_eth_dev_configure`. */
    method ConfigureDevice(n: nat, answer: bool)
      modifies this
      ensures if answer then configured == n && rx == tx == {} else unchanged(this)
    {
      if answer {
        configured, rx, tx := n, {}, {};
      }
    }

    /** `rte_eth_rx_queue_setup`. */
    method SetUpRx(q: nat, answers: Answers) returns (ok: bool)
      modifies this`rx
      ensures ok == (q < configured && q in answers.rx) && rx == old(rx) + if ok then {q} else {}
    {
      ok := q < configured && q in answers.rx;
      if ok {
        rx := rx + {q};
      }
    }

    /** `rte_eth_tx_queue_setup`. */
    method SetUpTx(q: nat, answers: Answers) returns (ok: bool)
      modifies this`tx
      ensures ok == (q < configured && q in answers.tx) && tx == old(tx) + if ok then {q} else {}
    {
      ok := q < configured && q in answers.tx;
      if ok {
        tx := tx + {q};
      }
    }

    /** `configure`. The device is configured with `numCores` queues and not with
        the rounded number, so for an odd number of cores it refuses the last queue;
        rounding the largest u16 wraps to no queue at all. Whenever `configure`
        succeeds, every receive queue has its own transmit queue. */
    method Configure(numCores: nat, answers: Answers) returns (ok: bool)
      requires numCores < U16_RANGE
      modifies this
      ensures ok <==> && answers.device && answers.promiscuous
                      && (numCores == U16_RANGE - 1 || (numCores % 2 == 0 && Accepts(answers, numCores)))
      ensures if answers.device then configured == numCores else unchanged(this)
      ensures ok ==> FirstQueues(rx, Rounded(numCores)) && FirstQueues(tx, Rounded(numCores))
      ensures ok ==> forall q :: q in rx ==> OutQueue(q) in tx && OutQueue(q) != q
    {
      ConfigureDevice(numCores, answers.device);
      if !answers.device {
        return false;
      }
      var n := Rounded(numCores);
      for i := 0 to n
        invariant configured == numCores && i <= (if n <= numCores then n else numCores)
        invariant FirstQueues(rx, i) && FirstQueues(tx, i) && Accepts(answers, i)
      {
        ok := SetUpRx(i, answers);
        if !ok {
          return;
        }
        ok := SetUpTx(i, answers);
        if !ok {
          return;
        }
      }
      AllPaired(n);
      ok := answers.promiscuous;
    }
  }
}
