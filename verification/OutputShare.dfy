/**
 Sharing an uplink between Homa and TCP (homa_qdisc_pacer): a credit decides which protocol sends
 the next deferred packet.
 */
module OutputShare {

  /** What the pacer finds in one pass: which protocols have deferred packets, and the length of the
      packet that each would send. */
  datatype Backlog = Backlog(homa: bool, tcp: bool, homaLen: nat, tcpLen: nat)

  /** The credit, and the bytes sent for each protocol. */
  datatype Account = Account(credit: int, homaBytes: nat, tcpBytes: nat)

  function Effective(credit: int, b: Backlog): int {
    if !b.tcp then 1 else if !b.homa then 0 else credit
  }

  /** One pass of the loop of homa_qdisc_pacer, with something to send. */
  function Pass(a: Account, share: nat, b: Backlog): Account {
    var c := Effective(a.credit, b);
    if c > 0 then Account(c - b.homaLen * (100 - share), a.homaBytes + b.homaLen, a.tcpBytes)
    else Account(c + b.tcpLen * share, a.homaBytes, a.tcpBytes + b.tcpLen)
  }

  function Passes(a: Account, share: nat, bs: seq<Backlog>): Account {
    if bs == [] then a else Pass(Passes(a, share, bs[..|bs| - 1]), share, bs[|bs| - 1])
  }

  /** Passes until neither protocol has packets, but at most `most`. */
  function Until(bs: seq<Backlog>, most: nat): (n: nat)
    ensures n <= |bs| && n <= most
  {
    if bs == [] || most == 0 || (!bs[0].homa && !bs[0].tcp) then 0 else 1 + Until(bs[1..], most - 1)
  }

  /** Every pass that is made has something to send, and passes end only when there is nothing or there were
      enough. */
  lemma {:induction false} UntilExact(bs: seq<Backlog>, most: nat)
    ensures var n := Until(bs, most);
      && (forall i :: 0 <= i < n ==> bs[i].homa || bs[i].tcp)
      && (n == |bs| || n == most || !(bs[n].homa || bs[n].tcp))
    decreases |bs|
  {
    if !(bs == [] || most == 0 || (!bs[0].homa && !bs[0].tcp)) {
      UntilExact(bs[1..], most - 1);
    }
  }

  /** homa_qdisc_pacer: at most five packets are sent. */
  method Pacer(a: Account, share: nat, bs: seq<Backlog>) returns (r: Account)
    ensures r == Passes(a, share, bs[..Until(bs, 5)])
  {
    r := a;
    var i := 0;
    assert bs[..0] == [] && bs[0..] == bs;
    while i < 5 && i < |bs|
      invariant 0 <= i <= 5 && i <= |bs| && r == Passes(a, share, bs[..i])
      invariant i + Until(bs[i..], 5 - i) == Until(bs, 5)
    {
      var credit := r.credit;
      if !bs[i].tcp {
        if !bs[i].homa {
          return;
        }
        credit := 1;
      } else if !bs[i].homa {
        credit := 0;
      }
      assert bs[..i + 1][..i] == bs[..i] && bs[i..][1..] == bs[i + 1..];
      if credit > 0 {
        r := Account(credit - bs[i].homaLen * (100 - share), r.homaBytes + bs[i].homaLen, r.tcpBytes);
      } else {
        r := Account(credit + bs[i].tcpLen * share, r.homaBytes, r.tcpBytes + bs[i].tcpLen);
      }
      i := i + 1;
    }
  }

  /** Homa's turn: it has packets, and TCP has none or Homa has credit. */
  predicate HomaSends(a: Account, b: Backlog) {
    b.homa && (!b.tcp || a.credit > 0)
  }

  /** A pass with something to send serves one protocol, and one that has packets: Homa if it is its turn, and
      otherwise TCP, which then has packets. The protocol that sends pays for it, from a fresh start if it is
      the only one. */
  lemma PassServes(a: Account, share: nat, b: Backlog)
    requires b.homa || b.tcp
    ensures var r := Pass(a, share, b);
      && r.homaBytes == a.homaBytes + (if HomaSends(a, b) then b.homaLen else 0)
      && r.tcpBytes == a.tcpBytes + (if HomaSends(a, b) then 0 else b.tcpLen)
      && (!HomaSends(a, b) ==> b.tcp)
      && r.credit == (if HomaSends(a, b) then (if b.tcp then a.credit else 1) - b.homaLen * (100 - share)
                      else (if b.homa then a.credit else 0) + b.tcpLen * share)
  {
  }

  /** The bytes of the packets that a protocol would send. */
  function HomaTotal(bs: seq<Backlog>): nat {
    if bs == [] then 0 else HomaTotal(bs[..|bs| - 1]) + bs[|bs| - 1].homaLen
  }

  function TcpTotal(bs: seq<Backlog>): nat {
    if bs == [] then 0 else TcpTotal(bs[..|bs| - 1]) + bs[|bs| - 1].tcpLen
  }

  /** While only one protocol has packets the uplink is all its own: every pass sends one of them. */
  lemma {:induction false} Alone(a: Account, share: nat, bs: seq<Backlog>)
    ensures var r := Passes(a, share, bs);
      && ((forall i :: 0 <= i < |bs| ==> bs[i].homa && !bs[i].tcp) ==>
            r.homaBytes == a.homaBytes + HomaTotal(bs) && r.tcpBytes == a.tcpBytes)
      && ((forall i :: 0 <= i < |bs| ==> bs[i].tcp && !bs[i].homa) ==>
            r.tcpBytes == a.tcpBytes + TcpTotal(bs) && r.homaBytes == a.homaBytes)
    decreases |bs|
  {
    hide Pass;
    if bs != [] {
      var k := |bs| - 1;
      Alone(a, share, bs[..k]);
      if bs[k].homa || bs[k].tcp {
        PassServes(Passes(a, share, bs[..k]), share, bs[k]);
      }
    }
  }

  ghost predicate Short(bs: seq<Backlog>, most: nat) {
    forall i :: 0 <= i < |bs| ==> bs[i].homaLen <= most && bs[i].tcpLen <= most
  }

  ghost predicate BothBacklogged(bs: seq<Backlog>) {
    forall i :: 0 <= i < |bs| ==> bs[i].homa && bs[i].tcp
  }

  /** The credit stays within one packet of either protocol. */
  ghost predicate InRange(credit: int, share: nat, most: nat) {
    -(most * (100 - share)) <= credit && (credit <= most * share || credit <= 1)
  }

  lemma Product(a: nat, b: nat, k: nat)
    requires a <= b
    ensures 0 <= a * k <= b * k
  {
  }

  lemma PassInRange(a: Account, share: nat, b: Backlog, most: nat)
    requires share <= 100 && b.homaLen <= most && b.tcpLen <= most && InRange(a.credit, share, most)
    ensures InRange(Pass(a, share, b).credit, share, most)
  {
    Product(b.homaLen, most, 100 - share);
    Product(b.tcpLen, most, share);
  }

  /** In every run, whatever is deferred when, the credit stays in range. */
  lemma {:induction false} CreditInRange(a: Account, share: nat, bs: seq<Backlog>, most: nat)
    requires share <= 100 && Short(bs, most) && InRange(a.credit, share, most)
    ensures InRange(Passes(a, share, bs).credit, share, most)
    decreases |bs|
  {
    hide InRange, Pass;
    if bs != [] {
      var k := |bs| - 1;
      CreditInRange(a, share, bs[..k], most);
      PassInRange(Passes(a, share, bs[..k]), share, bs[k], most);
    }
  }

  /** While both protocols stay backlogged, the credit accounts for every byte sent. */
  lemma {:induction false} CreditAccounts(a: Account, share: nat, bs: seq<Backlog>)
    requires share <= 100 && BothBacklogged(bs)
    ensures var r := Passes(a, share, bs);
      r.credit - a.credit == (r.tcpBytes - a.tcpBytes) * share - (r.homaBytes - a.homaBytes) * (100 - share)
    decreases |bs|
  {
    hide Pass;
    if bs != [] {
      var k := |bs| - 1;
      CreditAccounts(a, share, bs[..k]);
      var m, r := Passes(a, share, bs[..k]), Passes(a, share, bs);
      PassAccounts(m, share, bs[k]);
      Distribute(m.tcpBytes - a.tcpBytes, r.tcpBytes - m.tcpBytes, share);
      Distribute(m.homaBytes - a.homaBytes, r.homaBytes - m.homaBytes, 100 - share);
    }
  }

  lemma PassAccounts(a: Account, share: nat, b: Backlog)
    requires share <= 100 && b.homa && b.tcp
    ensures var r := Pass(a, share, b);
      r.credit - a.credit == (r.tcpBytes - a.tcpBytes) * share - (r.homaBytes - a.homaBytes) * (100 - share)
  {
  }

  lemma Distribute(a: int, b: int, k: int)
    ensures (a + b) * k == a * k + b * k
  {
  }

  /** Output sharing: while both protocols stay backlogged, Homa sends its share of all bytes sent, up to
      one packet of the largest length (and a hundredth of a byte). */
  lemma ShareBound(a: Account, share: nat, bs: seq<Backlog>, most: nat)
    requires share <= 100 && Short(bs, most) && BothBacklogged(bs) && InRange(a.credit, share, most)
    ensures var r := Passes(a, share, bs);
      var homa, tcp := r.homaBytes - a.homaBytes, r.tcpBytes - a.tcpBytes;
      -(100 * most + 1) <= 100 * homa - share * (homa + tcp) <= 100 * most + 1
  {
    hide Passes;
    var r := Passes(a, share, bs);
    var homa, tcp := r.homaBytes - a.homaBytes, r.tcpBytes - a.tcpBytes;
    CreditInRange(a, share, bs, most);
    CreditAccounts(a, share, bs);
    Rearrange(homa, tcp, share, most);
  }

  lemma Rearrange(homa: int, tcp: int, share: nat, most: nat)
    ensures 100 * homa - share * (homa + tcp) == -(tcp * share - homa * (100 - share))
    ensures most * share + most * (100 - share) == 100 * most
    ensures share <= 100 ==> 0 <= most * share && 0 <= most * (100 - share)
  {
    Distribute(share, 100 - share, most);
    Distribute(homa, tcp, share);
    if share <= 100 {
      Product(0, most, share);
      Product(0, most, 100 - share);
    }
  }
}
