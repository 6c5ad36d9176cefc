/** The pool of addresses given to callers: a chained hash table, and the allocator that
    walks the configured ranges. Addresses are in host order. */
module AddressPool {
  import opened Words

  const LAST_ADDRESS: u32 := 0xFFFF_FFFF

  datatype Range = Range(start: u32, end: u32, allow: bool)

  predicate Matches(r: Range, x: u32) {
    r.start <= x <= r.end
  }

  /** The last range holding an address decides, and it allows it. */
  predicate Allowed(ranges: seq<Range>, x: u32) {
    exists i :: 0 <= i < |ranges| && Decides(ranges, x, i) && ranges[i].allow
  }

  predicate Decides(ranges: seq<Range>, x: u32, i: nat)
    requires i < |ranges|
  {
    Matches(ranges[i], x) && forall j :: i < j < |ranges| ==> !Matches(ranges[j], x)
  }

  /** An address that may be handed out. */
  predicate Free(ranges: seq<Range>, used: set<u32>, x: u32) {
    x !in used && Allowed(ranges, x)
  }

  // ----- the rule list -----

  /** The verdict of the ranges after the one that offered an address. */
  function Verdict(later: seq<Range>, x: u32, verdict: bool): bool {
    if later == [] then verdict
    else Verdict(later[1..], x, if Matches(later[0], x) then later[0].allow else verdict)
  }

  lemma {:induction false} VerdictIsLast(later: seq<Range>, x: u32, verdict: bool)
    ensures Verdict(later, x, verdict) <==> Allowed([Range(x, x, verdict)] + later, x)
    decreases |later|
  {
    var r := Range(x, x, verdict);
    var all := [r] + later;
    if later == [] {
      assert Decides(all, x, 0);
      assert Allowed(all, x) ==> verdict;
    } else {
      var v := if Matches(later[0], x) then later[0].allow else verdict;
      VerdictIsLast(later[1..], x, v);
      var rest := [Range(x, x, v)] + later[1..];
      assert forall j :: 1 <= j < |rest| ==> rest[j] == all[j + 1];
      SkipFirst(all, rest, x, v);
    }
  }

  /** Two leading ranges count as one with the later verdict. */
  lemma SkipFirst(all: seq<Range>, rest: seq<Range>, x: u32, v: bool)
    requires |all| >= 2 && Matches(all[0], x)
    requires |rest| == |all| - 1 && rest[0] == Range(x, x, v)
    requires forall j :: 1 <= j < |rest| ==> rest[j] == all[j + 1]
    requires v == if Matches(all[1], x) then all[1].allow else all[0].allow
    ensures Allowed(all, x) <==> Allowed(rest, x)
  {
    if Allowed(all, x) {
      var i :| 0 <= i < |all| && Decides(all, x, i) && all[i].allow;
      var k := if i == 0 then 0 else i - 1;
      assert Decides(rest, x, k);
    }
    if Allowed(rest, x) {
      var k :| 0 <= k < |rest| && Decides(rest, x, k) && rest[k].allow;
      var i := if k == 0 && !Matches(all[1], x) then 0 else k + 1;
      assert forall j :: 2 <= j < |all| ==> all[j] == rest[j - 1];
      assert Decides(all, x, i);
    }
  }

  /** For an address of an allowing range, the ranges after it have the whole say. */
  lemma LaterDecide(ranges: seq<Range>, i: nat, x: u32)
    requires i < |ranges| && Matches(ranges[i], x) && ranges[i].allow
    ensures Verdict(ranges[i + 1..], x, true) <==> Allowed(ranges, x)
  {
    var later := [Range(x, x, true)] + ranges[i + 1..];
    VerdictIsLast(ranges[i + 1..], x, true);
    assert forall j :: 1 <= j < |later| ==> later[j] == ranges[i + j];
    if Allowed(ranges, x) {
      var k :| 0 <= k < |ranges| && Decides(ranges, x, k) && ranges[k].allow;
      assert Decides(later, x, k - i);
    }
    if Allowed(later, x) {
      var k :| 0 <= k < |later| && Decides(later, x, k) && later[k].allow;
      assert forall j :: i < j < |ranges| ==> ranges[j] == later[j - i];
      assert Decides(ranges, x, k + i);
    }
  }

  // ----- the search of the ranges -----

  /** The `k`-th address a range is searched through: the counter is a 32-bit word. */
  function Candidate(r: Range, k: nat): u32 {
    (r.start + k) % 0x1_0000_0000
  }

  /** An unused address that no range after the `i`-th denies. */
  predicate Offered(ranges: seq<Range>, used: set<u32>, i: nat, x: u32)
    requires i < |ranges|
  {
    x !in used && Verdict(ranges[i + 1..], x, true)
  }

  /** Inside its range, what is offered is what may be handed out. */
  lemma OfferedInside(ranges: seq<Range>, used: set<u32>, i: nat, x: u32)
    requires i < |ranges| && ranges[i].allow && Matches(ranges[i], x)
    ensures Offered(ranges, used, i, x) <==> Free(ranges, used, x)
  {
    LaterDecide(ranges, i, x);
  }

  predicate Exhausted(ranges: seq<Range>, used: set<u32>, i: nat)
    requires i < |ranges|
  {
    forall x: u32 :: Matches(ranges[i], x) ==> !Offered(ranges, used, i, x)
  }

  /** The search of the `i`-th range goes round the end of the address space. */
  predicate GoesRound(ranges: seq<Range>, used: set<u32>, i: nat)
    requires i < |ranges|
  {
    ranges[i].allow && ranges[i].end == LAST_ADDRESS && Exhausted(ranges, used, i)
  }

  /** The `i`-th range is searched: those before it gave nothing and came to an end. */
  predicate Reached(ranges: seq<Range>, used: set<u32>, i: nat)
    requires i <= |ranges|
  {
    forall j :: 0 <= j < i && ranges[j].allow ==> Exhausted(ranges, used, j) && ranges[j].end < LAST_ADDRESS
  }

  /** The first address the search of the `i`-th range comes to that is offered: the least
      of the range, or the least of all when it has gone round. */
  predicate FirstOffer(ranges: seq<Range>, used: set<u32>, i: nat, x: u32)
    requires i < |ranges|
  {
    && Offered(ranges, used, i, x)
    && if Matches(ranges[i], x) then
         forall y: u32 :: Matches(ranges[i], y) && y < x ==> !Offered(ranges, used, i, y)
       else
         GoesRound(ranges, used, i) && forall y: u32 :: y < x ==> !Offered(ranges, used, i, y)
  }

  /** The address the search of all ranges comes to first. */
  predicate Chosen(ranges: seq<Range>, used: set<u32>, x: u32) {
    exists i :: 0 <= i < |ranges| && ChosenAt(ranges, used, i, x)
  }

  predicate ChosenAt(ranges: seq<Range>, used: set<u32>, i: nat, x: u32)
    requires i < |ranges|
  {
    ranges[i].allow && Reached(ranges, used, i) && FirstOffer(ranges, used, i, x)
  }

  /** The search goes round a range for ever: it ends at the last address and no address at
      all is offered. */
  predicate Endless(ranges: seq<Range>, used: set<u32>) {
    exists i :: 0 <= i < |ranges| && EndlessAt(ranges, used, i)
  }

  predicate EndlessAt(ranges: seq<Range>, used: set<u32>, i: nat)
    requires i < |ranges|
  {
    && Reached(ranges, used, i) && GoesRound(ranges, used, i)
    && forall x: u32 :: !Offered(ranges, used, i, x)
  }

  /** No search goes round: the property everybody expects holds of these. */
  predicate StaysInside(ranges: seq<Range>, used: set<u32>) {
    forall i :: 0 <= i < |ranges| && Reached(ranges, used, i) ==> !GoesRound(ranges, used, i)
  }

  /** The first `k` candidates were in bounds and not offered. */
  ghost predicate PassedOver(ranges: seq<Range>, used: set<u32>, i: nat, k: nat)
    requires i < |ranges|
  {
    forall m: nat :: m < k ==>
      Candidate(ranges[i], m) <= ranges[i].end && !Offered(ranges, used, i, Candidate(ranges[i], m))
  }

  lemma PassOver(ranges: seq<Range>, used: set<u32>, i: nat, k: nat)
    requires i < |ranges| && PassedOver(ranges, used, i, k)
    requires Candidate(ranges[i], k) <= ranges[i].end && !Offered(ranges, used, i, Candidate(ranges[i], k))
    ensures PassedOver(ranges, used, i, k + 1)
    ensures var x := Candidate(ranges[i], k); Candidate(ranges[i], k + 1) == if x == LAST_ADDRESS then 0 else x + 1
  {
  }

  lemma Passed(ranges: seq<Range>, used: set<u32>, i: nat, k: nat, y: u32)
    requires i < |ranges| && PassedOver(ranges, used, i, k)
    ensures ranges[i].start <= y < ranges[i].start + k ==> y <= ranges[i].end && !Offered(ranges, used, i, y)
    ensures y < ranges[i].start && y + 0x1_0000_0000 < ranges[i].start + k ==> !Offered(ranges, used, i, y)
  {
    hide Offered;
    var r := ranges[i];
    if r.start <= y < r.start + k {
      assert Candidate(r, y - r.start) == y;
    }
    if y < r.start && y + 0x1_0000_0000 < r.start + k {
      assert Candidate(r, y + 0x1_0000_0000 - r.start) == y;
    }
  }

  lemma FoundFirst(ranges: seq<Range>, used: set<u32>, i: nat, k: nat)
    requires i < |ranges| && ranges[i].allow && PassedOver(ranges, used, i, k) && k < 0x1_0000_0000
    requires var x := Candidate(ranges[i], k); x <= ranges[i].end && Offered(ranges, used, i, x)
    ensures FirstOffer(ranges, used, i, Candidate(ranges[i], k))
  {
    forall y: u32 {
      Passed(ranges, used, i, k, y);
    }
    Passed(ranges, used, i, k, LAST_ADDRESS);
    hide Offered, PassedOver;
  }

  lemma NoneFound(ranges: seq<Range>, used: set<u32>, i: nat, k: nat)
    requires i < |ranges| && ranges[i].allow && PassedOver(ranges, used, i, k) && k <= 0x1_0000_0000
    requires Candidate(ranges[i], k) > ranges[i].end || k == 0x1_0000_0000
    ensures Exhausted(ranges, used, i) && (Candidate(ranges[i], k) <= ranges[i].end <==> ranges[i].end == LAST_ADDRESS)
    ensures ranges[i].end == LAST_ADDRESS ==> forall x: u32 :: !Offered(ranges, used, i, x)
  {
    forall y: u32 {
      Passed(ranges, used, i, k, y);
    }
    Passed(ranges, used, i, k, LAST_ADDRESS);
    hide Offered, PassedOver;
  }

  // ----- when the result is what it should be -----

  /** An address offered after going round is allowed exactly if a later range holds it, or
      the ranges before allow it. */
  lemma AllowedAfterRound(ranges: seq<Range>, used: set<u32>, i: nat, x: u32)
    requires i < |ranges| && Offered(ranges, used, i, x) && !Matches(ranges[i], x)
    ensures Free(ranges, used, x) <==>
              (exists j :: i < j < |ranges| && Matches(ranges[j], x)) || Allowed(ranges[..i], x)
  {
    var r := Range(x, x, true);
    var later := [r] + ranges[i + 1..];
    VerdictIsLast(ranges[i + 1..], x, true);
    var k :| 0 <= k < |later| && Decides(later, x, k) && later[k].allow;
    assert forall j :: i < j < |ranges| ==> ranges[j] == later[j - i];
    if k > 0 {
      assert ranges[i + k] == later[k];
      assert Decides(ranges, x, i + k);
    } else {
      assert forall j :: i < j < |ranges| ==> !Matches(ranges[j], x);
      EarlierDecide(ranges, i, x);
    }
  }

  lemma EarlierDecide(ranges: seq<Range>, i: nat, x: u32)
    requires i < |ranges| && forall j :: i <= j < |ranges| ==> !Matches(ranges[j], x)
    ensures Allowed(ranges, x) <==> Allowed(ranges[..i], x)
  {
    if Allowed(ranges, x) {
      var k :| 0 <= k < |ranges| && Decides(ranges, x, k) && ranges[k].allow;
      assert Decides(ranges[..i], x, k);
    }
    if Allowed(ranges[..i], x) {
      var k :| 0 <= k < i && Decides(ranges[..i], x, k) && ranges[..i][k].allow;
      assert Decides(ranges, x, k);
    }
  }

  /** The chosen address is free exactly when the search did not go round, or went round to
      an address that other ranges allow. */
  lemma ChosenIsFree(ranges: seq<Range>, used: set<u32>, i: nat, x: u32)
    requires i < |ranges| && ChosenAt(ranges, used, i, x)
    ensures Free(ranges, used, x) <==>
              || Matches(ranges[i], x)
              || (exists j :: i < j < |ranges| && Matches(ranges[j], x)) || Allowed(ranges[..i], x)
  {
    if Matches(ranges[i], x) {
      OfferedInside(ranges, used, i, x);
    } else {
      AllowedAfterRound(ranges, used, i, x);
    }
  }

  /** At most one range and one address are chosen, and then the search ends. */
  lemma ChosenOnce(ranges: seq<Range>, used: set<u32>, i: nat, x: u32, j: nat, y: u32)
    requires i < |ranges| && ChosenAt(ranges, used, i, x) && j < |ranges|
    ensures ChosenAt(ranges, used, j, y) ==> i == j && x == y
    ensures !EndlessAt(ranges, used, j)
  {
    hide Offered;
  }

  lemma FoundAt(ranges: seq<Range>, used: set<u32>, i: nat, x: u32)
    requires i < |ranges| && ChosenAt(ranges, used, i, x)
    ensures Chosen(ranges, used, x) && !Endless(ranges, used) && x !in used
    ensures forall y: u32 :: Chosen(ranges, used, y) ==> y == x
    ensures StaysInside(ranges, used) ==> Free(ranges, used, x)
  {
    forall j, y: u32 | 0 <= j < |ranges| ensures ChosenAt(ranges, used, j, y) ==> y == x {
      ChosenOnce(ranges, used, i, x, j, y);
    }
    forall j | 0 <= j < |ranges| ensures !EndlessAt(ranges, used, j) {
      ChosenOnce(ranges, used, i, x, j, x);
    }
    ChosenIsFree(ranges, used, i, x);
  }

  lemma NothingFound(ranges: seq<Range>, used: set<u32>)
    requires Reached(ranges, used, |ranges|)
    ensures !Endless(ranges, used) && forall x: u32 :: !Free(ranges, used, x)
  {
    forall x: u32 ensures !Free(ranges, used, x) {
      if Free(ranges, used, x) {
        var i :| 0 <= i < |ranges| && Decides(ranges, x, i) && ranges[i].allow;
        OfferedInside(ranges, used, i, x);
        assert false;
      }
    }
  }

  /** A range up to the last address, which is taken, and ten addresses denied: the search
      goes round and gives an address outside every allowing range. */
  lemma OutsideExample()
    ensures var ranges := [Range(LAST_ADDRESS, LAST_ADDRESS, true), Range(0, 9, false)];
            && Chosen(ranges, {LAST_ADDRESS}, 10) && !Allowed(ranges, 10)
            && forall x: u32 :: !Free(ranges, {LAST_ADDRESS}, x)
  {
    var ranges := [Range(LAST_ADDRESS, LAST_ADDRESS, true), Range(0, 9, false)];
    var used := {LAST_ADDRESS};
    var none: seq<Range> := [];
    assert ranges[1..] == [ranges[1]] && ranges[1..][1..] == none;
    forall x: u32 ensures Verdict(ranges[1..], x, true) == (x > 9) {
      assert Verdict(ranges[1..], x, true) == Verdict(none, x, if Matches(ranges[1], x) then false else true);
    }
    assert FirstOffer(ranges, used, 0, 10);
    assert ChosenAt(ranges, used, 0, 10);
  }

  /** The same range with everything denied behind it: the search does not end. */
  lemma EndlessExample()
    ensures Endless([Range(LAST_ADDRESS, LAST_ADDRESS, true), Range(0, LAST_ADDRESS, false)], {})
  {
    var ranges := [Range(LAST_ADDRESS, LAST_ADDRESS, true), Range(0, LAST_ADDRESS, false)];
    var none: seq<Range> := [];
    assert ranges[1..] == [ranges[1]] && ranges[1..][1..] == none;
    forall x: u32 ensures !Verdict(ranges[1..], x, true) {
      assert Verdict(ranges[1..], x, true) == Verdict(none, x, false);
    }
    assert EndlessAt(ranges, {}, 0);
  }

  // ----- the hash table -----

  function Without(bucket: seq<u32>, addr: u32): (r: seq<u32>)
    ensures forall a :: a in r <==> a in bucket && a != addr
  {
    if bucket == [] then []
    else if bucket[0] == addr then Without(bucket[1..], addr)
    else [bucket[0]] + Without(bucket[1..], addr)
  }

  lemma {:induction false} WithoutLast(bucket: seq<u32>, k: nat, addr: u32)
    requires k < |bucket|
    ensures Without(bucket[..k + 1], addr)
         == Without(bucket[..k], addr) + (if bucket[k] == addr then [] else [bucket[k]])
    decreases |bucket|
  {
    if k == 0 {
      assert bucket[..1] == [bucket[0]];
    } else {
      WithoutLast(bucket[1..], k - 1, addr);
      assert bucket[..k + 1][1..] == bucket[1..][..k] && bucket[..k][1..] == bucket[1..][..k - 1];
    }
  }

  class Pool {
    const uaddr: array<seq<u32>>

    ghost predicate Valid()
      reads this, uaddr
    {
      && uaddr.Length == 256
      && forall b :: 0 <= b < 256 ==> InBucket(uaddr[b], b)
    }

    static ghost predicate InBucket(bucket: seq<u32>, b: int) {
      forall a <- bucket :: a % 256 == b
    }

    /** The reserved addresses. */
    ghost function Used(): set<u32>
      reads this, uaddr
    {
      set b, a | 0 <= b < uaddr.Length && a in uaddr[b] :: a
    }

    lemma UsedIsHashed(addr: u32)
      requires Valid()
      ensures addr in Used() <==> addr in uaddr[addr % 256]
    {
      if addr in Used() {
        var b :| 0 <= b < uaddr.Length && addr in uaddr[b];
        assert InBucket(uaddr[b], b);
      }
    }

    constructor ()
      ensures Valid() && fresh(uaddr) && Used() == {}
    {
      uaddr := new seq<u32>[256](_ => []);
    }

    method IpUsed(addr: u32) returns (used: bool)
      requires Valid()
      ensures used <==> addr in Used()
    {
      UsedIsHashed(addr);
      var bucket := uaddr[addr % 256];
      var k := 0;
      while k < |bucket|
        invariant k <= |bucket| && addr !in bucket[..k]
      {
        if bucket[k] == addr {
          return true;
        }
        k := k + 1;
      }
      return false;
    }

    method Reserve(addr: u32)
      requires Valid()
      modifies uaddr
      ensures Valid() && Used() == old(Used()) + {addr}
    {
      var used := IpUsed(addr);
      if used {
        return;
      }
      var bucket := uaddr[addr % 256];
      assert InBucket(bucket, addr % 256);
      SetBucket(addr % 256, [addr] + bucket);
    }

    method Unreserve(addr: u32)
      requires Valid()
      modifies uaddr
      ensures Valid() && Used() == old(Used()) - {addr}
    {
      var bucket := uaddr[addr % 256];
      var kept: seq<u32> := [];
      var k := 0;
      while k < |bucket|
        invariant k <= |bucket| && kept == Without(bucket[..k], addr)
        modifies {}
      {
        WithoutLast(bucket, k, addr);
        if bucket[k] != addr {
          kept := kept + [bucket[k]];
        }
        k := k + 1;
      }
      assert bucket[..k] == bucket && InBucket(bucket, addr % 256);
      UsedIsHashed(addr);
      SetBucket(addr % 256, kept);
    }

    /** Change one chain by one address. */
    method SetBucket(b: nat, bucket: seq<u32>)
      requires Valid() && b < 256 && InBucket(bucket, b)
      modifies uaddr
      ensures Valid()
      ensures forall a: u32 :: a in Used() <==> if a % 256 == b then a in bucket else a in old(Used())
      ensures forall a: u32 :: a % 256 == b ==> (a in old(Used()) <==> a in old(uaddr[b]))
    {
      forall a: u32 ensures a in Used() <==> a in uaddr[a % 256] {
        UsedIsHashed(a);
      }
      uaddr[b] := bucket;
      forall a: u32 ensures a in Used() <==> a in uaddr[a % 256] {
        UsedIsHashed(a);
      }
    }

    /** What the ranges after the one that offered an address say of it. */
    static method LaterVerdict(later: seq<Range>, x: u32) returns (verdict: bool)
      ensures verdict == Verdict(later, x, true)
    {
      verdict := true;
      var k := 0;
      while k < |later|
        invariant k <= |later| && Verdict(later[k..], x, verdict) == Verdict(later, x, true)
      {
        assert later[k..][1..] == later[k + 1..];
        if Matches(later[k], x) {
          verdict := later[k].allow;
        }
        k := k + 1;
      }
    }

    /** Search one allowing range. A search that has been through every address of a range
        up to the last one would go on for ever. */
    method SearchRange(ranges: seq<Range>, i: nat) returns (found: bool, x: u32, endless: bool)
      requires Valid() && i < |ranges| && ranges[i].allow
      ensures found ==> FirstOffer(ranges, Used(), i, x) && !endless
      ensures !found ==> Exhausted(ranges, Used(), i) && (endless <==> ranges[i].end == LAST_ADDRESS)
      ensures endless ==> forall y: u32 :: !Offered(ranges, Used(), i, y)
    {
      var r := ranges[i];
      var k := 0;
      x := r.start;
      assert PassedOver(ranges, Used(), i, 0) && Candidate(r, 0) == x;
      hide PassedOver, Offered, FirstOffer, Exhausted, Candidate, Used;
      while x <= r.end && k < 0x1_0000_0000
        invariant k <= 0x1_0000_0000 && x == Candidate(r, k) && PassedOver(ranges, Used(), i, k)
        decreases 0x1_0000_0000 - k
      {
        var offered := Offers(ranges, i, x);
        if offered {
          FoundFirst(ranges, Used(), i, k);
          return true, x, false;
        }
        PassOver(ranges, Used(), i, k);
        k := k + 1;
        x := if x == LAST_ADDRESS then 0 else x + 1;
      }
      NoneFound(ranges, Used(), i, k);
      return false, x, x <= r.end;
    }

    /** An address of an allowing range is tried. */
    method Offers(ranges: seq<Range>, i: nat, x: u32) returns (ok: bool)
      requires Valid() && i < |ranges|
      ensures ok <==> Offered(ranges, Used(), i, x)
    {
      var used := IpUsed(x);
      if used {
        return false;
      }
      ok := LaterVerdict(ranges[i + 1..], x);
    }

    /** An address for a caller, or 0; or no return at all. */
    method GetAddr(ranges: seq<Range>) returns (addr: u32, endless: bool)
      requires Valid()
      ensures endless <==> Endless(ranges, Used())
      ensures !endless && addr != 0 ==> Chosen(ranges, Used(), addr) && addr !in Used()
      ensures !endless && addr == 0 ==> Chosen(ranges, Used(), 0) || forall x: u32 :: !Free(ranges, Used(), x)
      ensures StaysInside(ranges, Used()) ==> !endless && (addr != 0 ==> Free(ranges, Used(), addr))
      ensures StaysInside(ranges, Used()) ==>
                (addr == 0 <==> Chosen(ranges, Used(), 0) || forall x: u32 :: !Free(ranges, Used(), x))
    {
      var i := 0;
      while i < |ranges|
        invariant i <= |ranges| && Reached(ranges, Used(), i)
      {
        if ranges[i].allow {
          var found, x, forever := SearchRange(ranges, i);
          if found {
            FoundAt(ranges, Used(), i, x);
            return x, false;
          }
          if forever {
            assert EndlessAt(ranges, Used(), i);
            return 0, true;
          }
        }
        i := i + 1;
      }
      NothingFound(ranges, Used());
      return 0, false;
    }
  }
}
