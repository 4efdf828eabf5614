/**
 The number that tells the renderers of one tab apart. It wraps around.
 */
module Epochs {

  const EPOCHS := 0x1_0000_0000

  function NextEpoch(epoch: nat): (e: nat)
    ensures e < EPOCHS
  {
    (epoch + 1) % EPOCHS
  }

  function EpochAfter(epoch: nat, respawns: nat): nat {
    if respawns == 0 then epoch else NextEpoch(EpochAfter(epoch, respawns - 1))
  }

  /** Events of a replaced renderer are told apart unless exactly a multiple of 2^32 replacements came between. */
  lemma {:induction false} OldEpochIsOld(epoch: nat, respawns: nat)
    requires epoch < EPOCHS
    ensures EpochAfter(epoch, respawns) == (epoch + respawns) % EPOCHS
    ensures EpochAfter(epoch, respawns) == epoch <==> respawns % EPOCHS == 0
  {
    if respawns > 0 {
      OldEpochIsOld(epoch, respawns - 1);
      OneMore(epoch + respawns - 1);
    }
    BackAgain(epoch, respawns);
  }

  lemma {:induction false} OneMore(a: nat)
    ensures (a % EPOCHS + 1) % EPOCHS == (a + 1) % EPOCHS
  {
  }

  lemma {:induction false} BackAgain(epoch: nat, k: nat)
    requires epoch < EPOCHS
    ensures (epoch + k) % EPOCHS == epoch <==> k % EPOCHS == 0
  {
    var q, r := k / EPOCHS, k % EPOCHS;
    assert k == q * EPOCHS + r;
    if epoch + r < EPOCHS {
      assert epoch + k == q * EPOCHS + (epoch + r);
    } else {
      assert epoch + k == (q + 1) * EPOCHS + (epoch + r - EPOCHS);
    }
  }
}
