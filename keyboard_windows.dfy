/**
 * Keyboard on Windows: the poll of the Win32 key-state buffer into the list
 * of pressed keys.
 *
 * The static class becomes a class: the 256-byte key-state buffer the poll
 * fills, the key list, and the active flag. Key codes are the numeric
 * values of the Keys enum; GetKeyboardState is a parameter (whether it
 * succeeded and the buffer it produced).
 */
module KeyboardInput {
  import opened Numerics

  // ---------------------------------------------------------------------
  // The key-code table
  // ---------------------------------------------------------------------

  /** Keys.None */
  const NONE: int := 0

  /** The table's codes that fit a virtual-key byte (1..255), in table order. */
  function KeyCodesIn(definedKeys: seq<int>): seq<Byte>
    decreases |definedKeys|
  {
    if definedKeys == [] then []
    else
      var front := KeyCodesIn(definedKeys[..|definedKeys| - 1]);
      var key := definedKeys[|definedKeys| - 1];
      if 1 <= key <= 255 then front + [key] else front
  }

  /** A code is defined exactly when the table lists it and it lies in 1..255; Keys.None never is. */
  lemma {:induction false} KeyCodesInMembers(definedKeys: seq<int>, code: int)
    ensures code in KeyCodesIn(definedKeys) <==> code in definedKeys && 1 <= code <= 255
    ensures NONE !in KeyCodesIn(definedKeys)
    ensures |KeyCodesIn(definedKeys)| <= |definedKeys|
    decreases |definedKeys|
  {
    if definedKeys != [] {
      var front := definedKeys[..|definedKeys| - 1];
      KeyCodesInMembers(front, code);
      KeyCodesInMembers(front, NONE);
      assert definedKeys == front + [definedKeys[|definedKeys| - 1]];
    }
  }

  /** The static constructor's loop over the table. */
  method DefinedKeyCodes(definedKeys: seq<int>) returns (keyCodes: seq<Byte>)
    ensures keyCodes == KeyCodesIn(definedKeys)
  {
    keyCodes := [];
    var i := 0;
    while i < |definedKeys|
      invariant 0 <= i <= |definedKeys|
      invariant keyCodes == KeyCodesIn(definedKeys[..i])
    {
      var keyCode := definedKeys[i];
      if 1 <= keyCode && keyCode <= 255 {
        keyCodes := keyCodes + [keyCode];
      }
      assert definedKeys[..i + 1][..i] == definedKeys[..i];
      i := i + 1;
    }
    assert definedKeys[..i] == definedKeys;
  }

  // ---------------------------------------------------------------------
  // The poll, as functions of the key list and the key-state buffer
  // ---------------------------------------------------------------------

  /** IsKeyReleased on one buffer entry: the high bit (0x80) is clear. */
  function Released(state: Byte): (released: bool)
    ensures released <==> state < 0x80
  {
    BelowHighBit(state);
    (state as bv8) & 0x80 == 0
  }

  lemma BelowHighBit(state: Byte)
    ensures (state as bv8) & 0x80 == 0 <==> state < 0x80
  {
    var b := state as bv8;
    assert b & 0x80 == 0 <==> b < 0x80;
  }

  predicate Pressed(keyState: seq<Byte>, key: Byte)
    requires |keyState| == 256
  {
    !Released(keyState[key])
  }

  /** `_keys.RemoveAll(IsKeyReleasedPredicate)`: the listed keys still held, in order. */
  function StillPressed(keys: seq<Byte>, keyState: seq<Byte>): seq<Byte>
    requires |keyState| == 256
    decreases |keys|
  {
    if keys == [] then []
    else
      var front := StillPressed(keys[..|keys| - 1], keyState);
      var key := keys[|keys| - 1];
      if Pressed(keyState, key) then front + [key] else front
  }

  /**
   * The append loop as the model runs it: each pressed defined code is
   * appended unless the list already holds it.
   */
  function AppendPressed(keys: seq<Byte>, keyCodes: seq<Byte>, keyState: seq<Byte>): seq<Byte>
    requires |keyState| == 256
    decreases |keyCodes|
  {
    if keyCodes == [] then keys
    else
      var code := keyCodes[0];
      AppendPressed(if Pressed(keyState, code) && code !in keys then keys + [code] else keys,
                    keyCodes[1..], keyState)
  }

  /** The key list after a successful poll. */
  function Polled(keys: seq<Byte>, keyCodes: seq<Byte>, keyState: seq<Byte>): seq<Byte>
    requires |keyState| == 256
  {
    AppendPressed(StillPressed(keys, keyState), keyCodes, keyState)
  }

  /** The append loop as written: every pressed defined code is appended. */
  function AppendPressedAsWritten(keys: seq<Byte>, keyCodes: seq<Byte>, keyState: seq<Byte>): seq<Byte>
    requires |keyState| == 256
    decreases |keyCodes|
  {
    if keyCodes == [] then keys
    else
      var code := keyCodes[0];
      AppendPressedAsWritten(if Pressed(keyState, code) then keys + [code] else keys, keyCodes[1..], keyState)
  }

  function PolledAsWritten(keys: seq<Byte>, keyCodes: seq<Byte>, keyState: seq<Byte>): seq<Byte>
    requires |keyState| == 256
  {
    AppendPressedAsWritten(StillPressed(keys, keyState), keyCodes, keyState)
  }

  predicate Distinct(keys: seq<Byte>) {
    forall i, j :: 0 <= i < j < |keys| ==> keys[i] != keys[j]
  }

  /** Filtering keeps exactly the held keys of the list, and keeps a list without repeats without repeats. */
  lemma {:induction false} StillPressedMembers(keys: seq<Byte>, keyState: seq<Byte>, key: Byte)
    requires |keyState| == 256
    ensures key in StillPressed(keys, keyState) <==> key in keys && Pressed(keyState, key)
    ensures Distinct(keys) ==> Distinct(StillPressed(keys, keyState))
    decreases |keys|
  {
    if keys != [] {
      var front := keys[..|keys| - 1];
      var last := keys[|keys| - 1];
      StillPressedMembers(front, keyState, key);
      StillPressedMembers(front, keyState, last);
      assert keys == front + [last];
      if Distinct(keys) {
        assert Distinct(front);
        assert last !in front;
      }
    }
  }

  /** The append loop adds exactly the pressed codes, keeps what was listed, and adds no repeat. */
  lemma {:induction false} AppendPressedMembers(keys: seq<Byte>, keyCodes: seq<Byte>, keyState: seq<Byte>, key: Byte)
    requires |keyState| == 256
    ensures key in AppendPressed(keys, keyCodes, keyState) <==>
      key in keys || (key in keyCodes && Pressed(keyState, key))
    ensures Distinct(keys) ==> Distinct(AppendPressed(keys, keyCodes, keyState))
    decreases |keyCodes|
  {
    if keyCodes != [] {
      var code := keyCodes[0];
      var next := if Pressed(keyState, code) && code !in keys then keys + [code] else keys;
      AppendPressedMembers(next, keyCodes[1..], keyState, key);
      assert keyCodes == [code] + keyCodes[1..];
      if Distinct(keys) && Pressed(keyState, code) && code !in keys {
        assert Distinct(next);
      }
    }
  }

  /**
   * After a successful poll every listed key is held, every held defined
   * key is listed, and no key is listed twice.
   */
  lemma PolledLists(keys: seq<Byte>, keyCodes: seq<Byte>, keyState: seq<Byte>, key: Byte)
    requires |keyState| == 256
    requires forall k :: k in keys ==> k in keyCodes
    ensures key in Polled(keys, keyCodes, keyState) <==> key in keyCodes && Pressed(keyState, key)
    ensures Distinct(keys) ==> Distinct(Polled(keys, keyCodes, keyState))
  {
    StillPressedMembers(keys, keyState, key);
    AppendPressedMembers(StillPressed(keys, keyState), keyCodes, keyState, key);
  }

  /** The poll's loop over the defined codes. */
  method AppendPressedKeys(keys: seq<Byte>, keyCodes: seq<Byte>, keyState: seq<Byte>) returns (r: seq<Byte>)
    requires |keyState| == 256
    ensures r == AppendPressed(keys, keyCodes, keyState)
  {
    r := keys;
    var i := 0;
    while i < |keyCodes|
      invariant 0 <= i <= |keyCodes|
      invariant AppendPressed(keys, keyCodes, keyState) == AppendPressed(r, keyCodes[i..], keyState)
    {
      assert keyCodes[i..][0] == keyCodes[i] && keyCodes[i..][1..] == keyCodes[i + 1..];
      var keyCode := keyCodes[i];
      if !Released(keyState[keyCode]) && keyCode !in r {
        r := r + [keyCode];
      }
      i := i + 1;
    }
  }

  function Occurrences(keys: seq<Byte>, key: Byte): nat {
    multiset(keys)[key]
  }

  /** As written, each poll appends a held key again: its count grows by its count in the table. */
  lemma {:induction false} AsWrittenAppendsAgain(keys: seq<Byte>, keyCodes: seq<Byte>, keyState: seq<Byte>, key: Byte)
    requires |keyState| == 256 && Pressed(keyState, key)
    ensures Occurrences(AppendPressedAsWritten(keys, keyCodes, keyState), key)
      == Occurrences(keys, key) + Occurrences(keyCodes, key)
    decreases |keyCodes|
  {
    if keyCodes != [] {
      var code := keyCodes[0];
      var next := if Pressed(keyState, code) then keys + [code] else keys;
      AsWrittenAppendsAgain(next, keyCodes[1..], keyState, key);
      assert keyCodes == [code] + keyCodes[1..];
    }
  }

  /** A held key's count in the filtered list is its count before. */
  lemma {:induction false} StillPressedKeepsCount(keys: seq<Byte>, keyState: seq<Byte>, key: Byte)
    requires |keyState| == 256 && Pressed(keyState, key)
    ensures Occurrences(StillPressed(keys, keyState), key) == Occurrences(keys, key)
    decreases |keys|
  {
    if keys != [] {
      var front := keys[..|keys| - 1];
      StillPressedKeepsCount(front, keyState, key);
      assert keys == front + [keys[|keys| - 1]];
    }
  }

  /**
   * The duplicate: a key held over `n` polls as written is listed `n`
   * times, while the corrected poll lists it once.
   */
  lemma HeldKeyAccumulates(keys: seq<Byte>, keyCodes: seq<Byte>, keyState: seq<Byte>, key: Byte)
    requires |keyState| == 256 && Pressed(keyState, key) && key in keyCodes && Distinct(keyCodes)
    ensures Occurrences(PolledAsWritten(keys, keyCodes, keyState), key) == Occurrences(keys, key) + 1
  {
    StillPressedKeepsCount(keys, keyState, key);
    AsWrittenAppendsAgain(StillPressed(keys, keyState), keyCodes, keyState, key);
    DistinctOnce(keyCodes, key);
  }

  lemma {:induction false} DistinctOnce(keys: seq<Byte>, key: Byte)
    requires Distinct(keys) && key in keys
    ensures Occurrences(keys, key) == 1
    decreases |keys|
  {
    var front := keys[..|keys| - 1];
    var last := keys[|keys| - 1];
    assert keys == front + [last];
    assert Distinct(front);
    if key == last {
      assert key !in front;
    } else {
      DistinctOnce(front, key);
    }
  }

  // ---------------------------------------------------------------------
  // The keyboard
  // ---------------------------------------------------------------------

  class Keyboard {
    const definedKeyCodes: seq<Byte>
    const keyState: array<Byte>
    var keys: seq<Byte>
    var isActive: bool

    /** The listed keys are defined codes, listed once each. */
    predicate Valid()
      reads this
    {
      && keyState.Length == 256
      && (forall k :: k in keys ==> k in definedKeyCodes)
      && Distinct(keys)
    }

    /** The static constructor: the defined codes from the Keys table, an empty list, inactive. */
    constructor (definedKeys: seq<int>)
      ensures Valid() && fresh(keyState)
      ensures definedKeyCodes == KeyCodesIn(definedKeys)
      ensures keys == [] && !isActive
    {
      var codes := DefinedKeyCodes(definedKeys);
      definedKeyCodes := codes;
      keyState := new Byte[256](_ => 0);
      keys := [];
      isActive := false;
    }

    function IsKeyReleased(keyCode: Byte): (released: bool)
      requires Valid()
      reads this, keyState
      ensures released <==> keyState[keyCode] < 0x80
    {
      Released(keyState[keyCode])
    }

    /**
     * PlatformGetState. `pollSucceeds` and `polledState` stand for
     * GetKeyboardState, which is only called while the keyboard is active.
     */
    method PlatformGetState(pollSucceeds: bool, polledState: seq<Byte>) returns (state: seq<Byte>)
      requires Valid() && |polledState| == 256
      modifies this, keyState
      ensures Valid() && isActive == old(isActive)
      ensures old(isActive) && pollSucceeds ==>
        keyState[..] == polledState && keys == Polled(old(keys), definedKeyCodes, polledState)
      ensures !(old(isActive) && pollSucceeds) ==> keys == old(keys) && keyState[..] == old(keyState[..])
      ensures state == keys
    {
      if isActive && pollSucceeds {
        forall i | 0 <= i < 256 {
          keyState[i] := polledState[i];
        }
        assert keyState[..] == polledState;
        var held := keys;
        keys := StillPressed(keys, polledState);
        keys := AppendPressedKeys(keys, definedKeyCodes, polledState);
        forall k ensures k in keys ==> k in definedKeyCodes {
          PolledLists(held, definedKeyCodes, polledState, k);
        }
        PolledLists(held, definedKeyCodes, polledState, 0);
      }
      state := keys;
    }

    /** SetActive: deactivating clears the key list; activating keeps it. */
    method SetActive(active: bool)
      requires Valid()
      modifies this
      ensures Valid() && isActive == active
      ensures keys == if active then old(keys) else []
    {
      isActive := active;
      if !isActive {
        keys := [];
      }
    }
  }
}
