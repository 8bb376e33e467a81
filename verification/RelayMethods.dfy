/** How a pooled transaction's relay method is kept in flags and only ever raised. */
module RelayMethods {

  datatype RelayMethod = NONE | LOCAL | FORWARD | STEM | FLUFF | BLOCK

  datatype Category = BROADCASTED | RELAYABLE | LEGACY | ALL

  /** The order of `relay_method`. */
  function Rank(m: RelayMethod): nat
  {
    match m
    case NONE => 0
    case LOCAL => 1
    case FORWARD => 2
    case STEM => 3
    case FLUFF => 4
    case BLOCK => 5
  }

  /** `matches_category` */
  predicate MatchesCategory(m: RelayMethod, c: Category)
  {
    match c
    case ALL => true
    case RELAYABLE => m != NONE
    case BROADCASTED => m == BLOCK || m == FLUFF
    case LEGACY => m == BLOCK || m == FLUFF || m == NONE
  }

  /** The flags of `txpool_tx_meta_t`: two bytes and three single bits of the record. */
  datatype Flags = Flags(keptByBlock: nat, doNotRelay: nat, isLocal: nat, isForwarding: nat, dandelionppStem: nat) {
    /** No flag above one, and at most one flag set. */
    predicate AtMostOne()
    {
      keptByBlock + doNotRelay + isLocal + isForwarding + dandelionppStem <= 1
    }

    /** `get_relay_method` */
    function Method(): RelayMethod
    {
      var state := (keptByBlock + 2 * doNotRelay + 4 * isLocal + 8 * isForwarding + 16 * dandelionppStem) % 256;
      if state == 1 then BLOCK
      else if state == 2 then NONE
      else if state == 4 then LOCAL
      else if state == 8 then FORWARD
      else if state == 16 then STEM
      else FLUFF
    }
  }

  function Bit(b: bool): nat
  {
    if b then 1 else 0
  }

  /** The flags that `set_relay_method` leaves. */
  function FlagsFor(m: RelayMethod): Flags
  {
    Flags(Bit(m == BLOCK), Bit(m == NONE), Bit(m == LOCAL), Bit(m == FORWARD), Bit(m == STEM))
  }

  /** The flags that hold a method are exactly those with at most one set. */
  lemma {:induction false} FlagsHoldMethods(f: Flags, m: RelayMethod)
    ensures FlagsFor(m).Method() == m
    ensures f == FlagsFor(m) <==> f.AtMostOne() && f.Method() == m
  {
    if f.AtMostOne() { OneFlag(f); }
  }

  lemma {:induction false} OneFlag(f: Flags)
    requires f.AtMostOne()
    ensures exists m :: f == FlagsFor(m)
    ensures f.Method() == if f.keptByBlock == 1 then BLOCK else if f.doNotRelay == 1 then NONE
                          else if f.isLocal == 1 then LOCAL else if f.isForwarding == 1 then FORWARD
                          else if f.dandelionppStem == 1 then STEM else FLUFF
  {
    assert f == FlagsFor(f.Method());
  }

  /** The meta data record, with the methods that change it. */
  class TxMeta {
    var flags: Flags

    constructor (m: RelayMethod)
      ensures flags == FlagsFor(m)
    {
      flags := FlagsFor(m);
    }

    /** `set_relay_method` */
    method SetRelayMethod(m: RelayMethod)
      modifies this
      ensures flags.AtMostOne() && flags.Method() == m
      ensures (flags.doNotRelay == 1) == (m == NONE) && (flags.isLocal == 1) == (m == LOCAL)
      ensures (flags.isForwarding == 1) == (m == FORWARD) && (flags.dandelionppStem == 1) == (m == STEM)
      ensures (flags.keptByBlock == 1) == (m == BLOCK)
    {
      flags := Flags(0, 0, 0, 0, 0);
      match m {
        case NONE => flags := flags.(doNotRelay := 1);
        case LOCAL => flags := flags.(isLocal := 1);
        case FORWARD => flags := flags.(isForwarding := 1);
        case STEM => flags := flags.(dandelionppStem := 1);
        case BLOCK => flags := flags.(keptByBlock := 1);
        case FLUFF =>
      }
    }

    /** `upgrade_relay_method`. The header says of a true result that the method now is the requested one; the result is
        also false when it was the requested one before. */
    method UpgradeRelayMethod(m: RelayMethod) returns (raised: bool)
      modifies this
      ensures raised == (Rank(old(flags).Method()) < Rank(m))
      ensures if raised then flags == FlagsFor(m) else flags == old(flags)
      ensures (raised <==> flags.Method() == m) <==> old(flags).Method() != m
    {
      if Rank(flags.Method()) < Rank(m) {
        SetRelayMethod(m);
        FlagsHoldMethods(flags, m);
        return true;
      }
      return false;
    }

    /** Any sequence of upgrades from flags that hold a method ends with the highest of that method and all
        requested. */
    method UpgradeAll(ms: seq<RelayMethod>)
      requires flags.AtMostOne()
      modifies this
      ensures flags == FlagsFor(Highest(old(flags).Method(), ms))
    {
      FlagsHoldMethods(flags, flags.Method());
      for i := 0 to |ms|
        invariant flags == FlagsFor(Highest(old(flags).Method(), ms[..i]))
      {
        FlagsHoldMethods(flags, Highest(old(flags).Method(), ms[..i]));
        assert ms[..i + 1][..i] == ms[..i];
        var raised := UpgradeRelayMethod(ms[i]);
      }
      assert ms[..|ms|] == ms;
    }
  }

  /** The highest of a method and others. */
  function Highest(m: RelayMethod, ms: seq<RelayMethod>): RelayMethod
  {
    if ms == [] then m else
      var h := Highest(m, ms[..|ms| - 1]);
      if Rank(h) < Rank(ms[|ms| - 1]) then ms[|ms| - 1] else h
  }

  lemma {:induction false} HighestIsMaximum(m: RelayMethod, ms: seq<RelayMethod>)
    ensures var h := Highest(m, ms);
            && Rank(m) <= Rank(h) && (forall i :: 0 <= i < |ms| ==> Rank(ms[i]) <= Rank(h))
            && (h == m || h in ms)
  {
    if ms != [] {
      var init := ms[..|ms| - 1];
      HighestIsMaximum(m, init);
      assert forall i :: 0 <= i < |init| ==> init[i] == ms[i];
      assert ms[|ms| - 1] in ms;
    }
  }

  /** Raising a method keeps it in every category if and only if the category is not the legacy one. */
  lemma {:induction false} UpwardClosed(c: Category)
    ensures (forall m, m' :: MatchesCategory(m, c) && Rank(m) <= Rank(m') ==> MatchesCategory(m', c)) <==> c != LEGACY
  {
    if c == LEGACY {
      assert MatchesCategory(NONE, c) && Rank(NONE) <= Rank(LOCAL) && !MatchesCategory(LOCAL, c);
    }
  }

  /** The order of the methods, and the least of the categories that are closed upwards; legacy is broadcasted or
      none. */
  lemma {:induction false} LeastOfCategory(m: RelayMethod)
    ensures Rank(NONE) < Rank(LOCAL) < Rank(FORWARD) < Rank(STEM) < Rank(FLUFF) < Rank(BLOCK)
    ensures MatchesCategory(m, RELAYABLE) <==> Rank(LOCAL) <= Rank(m)
    ensures MatchesCategory(m, BROADCASTED) <==> Rank(FLUFF) <= Rank(m)
    ensures MatchesCategory(m, LEGACY) <==> MatchesCategory(m, BROADCASTED) || m == NONE
    ensures MatchesCategory(m, ALL)
  {
  }
}
