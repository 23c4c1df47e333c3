/**
 * `truncate` and the `storage` wrapper around the browser's key-value store.
 * The store is a map from keys to stored strings; a value is written through
 * an encoder and read back through a decoder (both may fail, as
 * `JSON.stringify` and `JSON.parse` may throw).
 */
module Utils {
  import opened Wrappers

  function Max(a: int, b: int): int { if a < b then b else a }

  /**
   * `truncate(str, length)`: the string itself when it fits, otherwise its
   * first `length` characters followed by "..." (a negative length keeps no
   * characters, as `substring` clamps it to 0).
   */
  function Truncate(s: string, length: int): (r: string)
    ensures |s| <= length ==> r == s
    ensures |s| > length ==> |r| == Max(length, 0) + 3
    ensures |s| > length ==> r[..Max(length, 0)] == s[..Max(length, 0)] && r[Max(length, 0)..] == "..."
  {
    if |s| <= length then s else s[..Max(length, 0)] + "..."
  }

  /** A truncated string never exceeds the limit by more than the three-dot marker. */
  lemma TruncateBounded(s: string, length: nat)
    ensures |Truncate(s, length)| <= length + 3
  {
  }

  /** The codec stores `v` as a non-empty string and decodes it back to `v`. */
  ghost predicate FaithfulAt<T>(encode: T -> Result<string, string>, decode: string -> Result<T, string>, v: T) {
    encode(v).Success? && encode(v).value != "" && decode(encode(v).value) == Success(v)
  }

  /**
   * `storage.get(key, defaultValue)` over a store that exists (`hasWindow`)
   * and may be accessed (`accessible`; otherwise `getItem` throws).
   */
  function ReadItem<T>(hasWindow: bool, accessible: bool, items: map<string, string>, key: string,
                       default: T, decode: string -> Result<T, string>): (v: T)
    ensures !hasWindow || !accessible ==> v == default
    ensures key !in items || items[key] == "" ==> v == default
    ensures hasWindow && accessible && key in items && items[key] != "" ==>
      v == (if decode(items[key]).Success? then decode(items[key]).value else default)
  {
    if !hasWindow || !accessible then default
    else if key !in items || items[key] == "" then default
    else match decode(items[key])
      case Success(x) => x
      case Failure(_) => default
  }

  /** The store after `storage.set(key, value)`; a failed encoding or a refused write changes nothing. */
  function WriteItem<T>(hasWindow: bool, accessible: bool, items: map<string, string>, key: string,
                        value: T, encode: T -> Result<string, string>, quotaExceeded: bool): (m: map<string, string>)
    ensures !hasWindow || !accessible || quotaExceeded || encode(value).Failure? ==> m == items
    ensures hasWindow && accessible && !quotaExceeded && encode(value).Success? ==>
      m == items[key := encode(value).value]
  {
    if !hasWindow || !accessible || quotaExceeded then items
    else match encode(value)
      case Success(text) => items[key := text]
      case Failure(_) => items
  }

  /** The store after `storage.remove(key)`. */
  function RemoveItem(hasWindow: bool, accessible: bool, items: map<string, string>, key: string): (m: map<string, string>)
    ensures !hasWindow || !accessible ==> m == items
    ensures hasWindow && accessible ==> m.Keys == items.Keys - {key}
    ensures forall k :: k in m ==> k in items && m[k] == items[k]
  {
    if !hasWindow || !accessible then items else items - {key}
  }

  /** With a faithful codec, a successful write is read back, and other keys read as before. */
  lemma {:induction false} WriteThenRead<T>(accessible: bool, items: map<string, string>, key: string, value: T,
                                   encode: T -> Result<string, string>, decode: string -> Result<T, string>,
                                   other: string, default: T)
    requires accessible && FaithfulAt(encode, decode, value)
    ensures ReadItem(true, accessible, WriteItem(true, accessible, items, key, value, encode, false), key, default, decode) == value
    ensures other != key ==>
      ReadItem(true, accessible, WriteItem(true, accessible, items, key, value, encode, false), other, default, decode)
      == ReadItem(true, accessible, items, other, default, decode)
  {
    var m := WriteItem(true, accessible, items, key, value, encode, false);
    assert m == items[key := encode(value).value];
    assert m[key] == encode(value).value;
  }

  /** After a removal the key reads as the default. */
  lemma RemoveThenRead<T>(hasWindow: bool, accessible: bool, items: map<string, string>, key: string,
                          default: T, decode: string -> Result<T, string>)
    ensures ReadItem(hasWindow, accessible, RemoveItem(hasWindow, accessible, items, key), key, default, decode) == default
  {
  }

  /** The `storage` object over the browser's local store. */
  class Storage {
    const hasWindow: bool
    const accessible: bool
    var items: map<string, string>

    constructor (hasWindow: bool, accessible: bool, items: map<string, string>)
      ensures this.hasWindow == hasWindow && this.accessible == accessible && this.items == items
    {
      this.hasWindow := hasWindow;
      this.accessible := accessible;
      this.items := items;
    }

    method Get<T>(key: string, default: T, decode: string -> Result<T, string>) returns (v: T)
      ensures v == ReadItem(hasWindow, accessible, items, key, default, decode)
    {
      if !hasWindow {
        return default;
      }
      if !accessible {
        return default;
      }
      if key in items && items[key] != "" {
        var parsed := decode(items[key]);
        if parsed.Success? {
          return parsed.value;
        }
      }
      return default;
    }

    method Set<T>(key: string, value: T, encode: T -> Result<string, string>, quotaExceeded: bool)
      modifies this
      ensures items == WriteItem(hasWindow, accessible, old(items), key, value, encode, quotaExceeded)
    {
      if !hasWindow || !accessible || quotaExceeded {
        return;
      }
      var text := encode(value);
      if text.Success? {
        items := items[key := text.value];
      }
    }

    method Remove(key: string)
      modifies this
      ensures items == RemoveItem(hasWindow, accessible, old(items), key)
    {
      if !hasWindow || !accessible {
        return;
      }
      items := items - {key};
    }
  }

  /** A client of the store: what it writes under a faithful codec it reads back, until removed. */
  method StorageRoundTrip<T>(store: Storage, key: string, value: T, default: T,
                                 encode: T -> Result<string, string>, decode: string -> Result<T, string>)
    requires store.hasWindow && store.accessible && FaithfulAt(encode, decode, value)
    modifies store
  {
    store.Set(key, value, encode, false);
    var got := store.Get(key, default, decode);
    assert got == value;
    store.Remove(key);
    got := store.Get(key, default, decode);
    assert got == default;
  }
}
