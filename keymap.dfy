/**
 * Keyboard snapshots.  The X server answers a keymap query with 32 bytes,
 * one bit per keycode: keycode k is held when bit k % 8 of byte k / 8 is set.
 * `GetBit` is the capture loop's accessor; `Pressed` is the same fact stated
 * as "the binary digit k % 8 of byte k / 8 is one", against which it is proved.
 */
module Keymap {

  /** Number of bytes in a keymap reply. */
  const KeymapBytes: nat := 32

  /** Number of keycodes a keymap covers (the loop scans 32 * 8 of them). */
  const KeycodeCount: nat := 32 * 8

  /** A keymap reply, always 32 bytes long. */
  type Keymap = s: seq<bv8> | |s| == KeymapBytes witness NoKeysHeld

  /** The all-zero keymap the loop starts from ([0] * 32). */
  const NoKeysHeld: seq<bv8> := seq(32, _ => 0)

  /** Binary digit `k` of byte `b`. */
  predicate IsSet(b: bv8, k: nat)
    requires k < 8
  {
    (b >> k) % 2 == 1
  }

  /** Keycode `k` is held in `keys`: digit k % 8 of byte k / 8 is one. */
  predicate Pressed(keys: seq<bv8>, k: nat)
    requires k / 8 < |keys|
  {
    IsSet(keys[k / 8], k % 8)
  }

  /**
   * get_bit: the byte holding bit `index`, masked down to that bit.  Non-zero
   * exactly when the keycode is held, and then it is the bit's own mask.
   */
  function GetBit(keyArray: seq<bv8>, index: nat): (r: bv8)
    requires index / 8 < |keyArray|
    ensures r != 0 <==> Pressed(keyArray, index)
    ensures r == 0 || r == 1 << (index % 8)
  {
    keyArray[index / 8] & (1 << (index % 8))
  }

  /**
   * The loop's comparison of two snapshots at one index is a comparison of
   * that one bit: nothing else in either keymap matters.
   */
  lemma GetBitsDiffer(keys: seq<bv8>, previous: seq<bv8>, index: nat)
    requires index / 8 < |keys| && index / 8 < |previous|
    ensures GetBit(keys, index) != GetBit(previous, index) <==> Pressed(keys, index) != Pressed(previous, index)
  {
    var a, b := GetBit(keys, index), GetBit(previous, index);
    if Pressed(keys, index) == Pressed(previous, index) {
      assert a == b;
    } else {
      assert (a == 0) != (b == 0);
    }
  }

  /** `keys` and `previous` disagree on keycode `k` and on no other keycode. */
  predicate DiffersOnlyAt(keys: Keymap, previous: Keymap, k: nat)
  {
    forall i :: 0 <= i < KeycodeCount ==> (Pressed(keys, i) != Pressed(previous, i) <==> i == k)
  }

  /** `keys` with keycode `k` held as well. */
  function WithKey(keys: Keymap, k: nat): (r: Keymap)
    requires k < KeycodeCount
    ensures Pressed(r, k)
    ensures !Pressed(keys, k) ==> DiffersOnlyAt(r, keys, k)
  {
    var r := keys[k / 8 := keys[k / 8] | (1 << (k % 8))];
    SetBitKeepsOthers(keys[k / 8], k % 8);
    forall i | 0 <= i < KeycodeCount && i != k
      ensures Pressed(r, i) == Pressed(keys, i)
    {
      if i / 8 == k / 8 {
        assert i % 8 != k % 8;
      }
    }
    r
  }

  /** Setting binary digit `j` of a byte sets that digit and leaves the other seven alone. */
  lemma SetBitKeepsOthers(b: bv8, j: nat)
    requires j < 8
    ensures IsSet(b | (1 << j), j)
    ensures forall i :: 0 <= i < 8 && i != j ==> (IsSet(b | (1 << j), i) <==> IsSet(b, i))
  {
    if j == 0 { } else if j == 1 { } else if j == 2 { } else if j == 3 { }
    else if j == 4 { } else if j == 5 { } else if j == 6 { } else { }
  }
}
