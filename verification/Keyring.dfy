/** Credentials in a keyring whose entries are limited in length: split on store, joined on read. */
module Keyring {
  import opened Common

  const CONTINUE_MARKER: string := "<MORE>"
  const KEYCHAIN_ENTRY_LIMIT_WINDOWS: nat := 1024
  const KEYCHAIN_ENTRY_LIMIT_OTHER: nat := 131072

  /** The keyring: numbered entries, any of which may hold stale data. */
  type Slots = map<nat, string>

  predicate EndsWith(s: string, suffix: string) {
    |s| >= |suffix| && s[|s| - |suffix|..] == suffix
  }

  // ----- What is stored

  /** Where part `k` begins. */
  function Start(k: nat, step: nat): nat {
    k * step
  }

  /** The entry for the part of `s` that starts at `i`. */
  function EntryAt(s: string, i: nat, step: nat): string
    requires i <= |s|
  {
    if i + step <= |s| then s[i..i + step] + CONTINUE_MARKER else s[i..]
  }

  /** The keyring once the parts of `s` from number `k` on have been stored. */
  function StoreFrom(slots: Slots, s: string, k: nat, step: nat): Slots
    requires step >= 1
    decreases |s| - Start(k, step)
  {
    if Start(k, step) >= |s| then slots
    else
      NextPart(k, step);
      StoreFrom(slots[k := EntryAt(s, Start(k, step), step)], s, k + 1, step)
  }

  function Store(slots: Slots, s: string, step: nat): Slots
    requires step >= 1
  {
    StoreFrom(slots, s, 0, step)
  }

  lemma NextPart(k: nat, step: nat)
    ensures Start(k + 1, step) == Start(k, step) + step
  {
  }

  lemma PartsAscend(j: nat, k: nat, step: nat)
    requires j <= k
    ensures Start(j, step) <= Start(k, step)
  {
    assert k * step == j * step + (k - j) * step;
    assert (k - j) * step >= 0;
  }

  predicate Holds(slots: Slots, j: nat, entry: string) {
    j in slots && slots[j] == entry
  }

  predicate SameAt(slots: Slots, others: Slots, j: nat) {
    (j in slots <==> j in others) && (j in slots ==> slots[j] == others[j])
  }

  /** Each part is in the entry of its number; entries behind the last part are as before. */
  lemma {:induction false} Stored(slots: Slots, s: string, k: nat, step: nat, j: nat)
    requires step >= 1
    ensures k <= j && Start(j, step) < |s| ==> Holds(StoreFrom(slots, s, k, step), j, EntryAt(s, Start(j, step), step))
    ensures !(k <= j && Start(j, step) < |s|) ==> SameAt(StoreFrom(slots, s, k, step), slots, j)
    decreases |s| - Start(k, step)
  {
    NextPart(k, step);
    if Start(k, step) < |s| {
      Stored(slots[k := EntryAt(s, Start(k, step), step)], s, k + 1, step, j);
    } else if k <= j {
      PartsAscend(k, j, step);
    }
  }

  lemma StoredAt(slots: Slots, s: string, step: nat, j: nat)
    requires step >= 1
    ensures Start(j, step) < |s| ==> Holds(Store(slots, s, step), j, EntryAt(s, Start(j, step), step))
    ensures Start(j, step) >= |s| ==> SameAt(Store(slots, s, step), slots, j)
  {
    Stored(slots, s, 0, step, j);
  }

  // ----- What is read

  ghost function From(slots: Slots, i: nat): set<nat> {
    set k | k in slots && k >= i
  }

  lemma FewerFrom(slots: Slots, i: nat)
    requires i in slots
    ensures |From(slots, i + 1)| < |From(slots, i)|
  {
    assert From(slots, i + 1) == From(slots, i) - {i};
  }

  /** Entries joined from number `i` on, up to the first that does not continue; None if one is missing. */
  ghost function ReadFrom(slots: Slots, i: nat): Option<string>
    decreases |From(slots, i)|
  {
    if i !in slots then None
    else if EndsWith(slots[i], CONTINUE_MARKER) then
      FewerFrom(slots, i);
      match ReadFrom(slots, i + 1)
      case None => None
      case Some(rest) => Some(slots[i][..|slots[i]| - |CONTINUE_MARKER|] + rest)
    else Some(slots[i])
  }

  // ----- Round trip

  /** The part at the end that is stored without a marker. */
  function LastPart(s: string, step: nat): string
    requires step >= 1
  {
    s[|s| - |s| % step..]
  }

  /** Strings that survive: the last part is not empty and does not look as if it continued. */
  predicate Storable(s: string, step: nat)
    requires step >= 1
  {
    |s| % step != 0 && !EndsWith(LastPart(s, step), CONTINUE_MARKER)
  }

  lemma MarkedEntry(part: string)
    ensures EndsWith(part + CONTINUE_MARKER, CONTINUE_MARKER)
    ensures (part + CONTINUE_MARKER)[..|part + CONTINUE_MARKER| - |CONTINUE_MARKER|] == part
  {
  }

  /** In the last part there is less than a step left. */
  lemma WhereLastPartStarts(s: string, k: nat, step: nat)
    requires step >= 1 && Start(k, step) <= |s| < Start(k, step) + step
    ensures |s| % step == |s| - Start(k, step) && |s| - |s| % step == Start(k, step)
  {
    var r := |s| - Start(k, step);
    RemainderOf(k, step, r);
  }

  lemma {:induction false} RemainderOf(k: nat, step: nat, r: nat)
    requires r < step
    ensures (k * step + r) % step == r
  {
    var n := k * step + r;
    var q, m := n / step, n % step;
    assert n == step * q + m == q * step + m;
    NextPart(q, step);
    NextPart(k, step);
    if q < k {
      PartsAscend(q + 1, k, step);
    } else if q > k {
      PartsAscend(k + 1, q, step);
    }
  }

  lemma {:induction false} ReadsBackFrom(slots: Slots, s: string, k: nat, step: nat)
    requires step >= 1 && Storable(s, step) && Start(k, step) < |s|
    ensures ReadFrom(Store(slots, s, step), k) == Some(s[Start(k, step)..])
    decreases |s| - Start(k, step)
  {
    hide Store;
    var r := Store(slots, s, step);
    StoredAt(slots, s, step, k);
    NextPart(k, step);
    if Start(k + 1, step) <= |s| {
      if Start(k + 1, step) == |s| {
        RemainderOf(k + 1, step, 0);
      }
      ReadsBackFrom(slots, s, k + 1, step);
      var part := s[Start(k, step)..Start(k, step) + step];
      MarkedEntry(part);
      assert part + s[Start(k + 1, step)..] == s[Start(k, step)..];
    } else {
      WhereLastPartStarts(s, k, step);
    }
  }

  /** Whatever the keyring held before. */
  lemma ReadAfterStore(slots: Slots, s: string, step: nat)
    requires step >= 1 && Storable(s, step)
    ensures ReadFrom(Store(slots, s, step), 0) == Some(s)
  {
    assert Start(0, step) == 0;
    assert s != "" by {
      if s == "" {
        RemainderOf(0, step, 0);
      }
    }
    ReadsBackFrom(slots, s, 0, step);
    assert s[0..] == s;
  }

  lemma ReadMissing(slots: Slots, i: nat)
    requires i !in slots
    ensures ReadFrom(slots, i) == None
  {
  }

  /** In a string that is not storable, every part is marked as continued, or looks like it. */
  lemma EveryPartMarked(s: string, k: nat, step: nat)
    requires step >= 1 && !Storable(s, step) && Start(k, step) < |s|
    ensures EndsWith(EntryAt(s, Start(k, step), step), CONTINUE_MARKER)
  {
    if Start(k, step) + step <= |s| {
      MarkedEntry(s[Start(k, step)..Start(k, step) + step]);
    } else {
      WhereLastPartStarts(s, k, step);
    }
  }

  /** In an empty keyring every other string reads as if nothing were there. */
  lemma {:induction false} ReadsNothingFrom(s: string, k: nat, step: nat)
    requires step >= 1 && !Storable(s, step) && Start(k, step) < |s| + step
    ensures ReadFrom(Store(map[], s, step), k) == None
    decreases |s| + step - Start(k, step)
  {
    hide Store, ReadFrom, EndsWith, Storable, EntryAt;
    var r := Store(map[], s, step);
    StoredAt(map[], s, step, k);
    if Start(k, step) < |s| {
      NextPart(k, step);
      EveryPartMarked(s, k, step);
      ReadsNothingFrom(s, k + 1, step);
      NextRead(r, k);
    } else {
      ReadMissing(r, k);
    }
  }

  /** Stored strings read back, whatever stale entries there are, exactly if they are storable. */
  lemma RoundTripExactly(s: string, step: nat)
    requires step >= 1
    ensures (forall slots {:trigger Store(slots, s, step)} :: ReadFrom(Store(slots, s, step), 0) == Some(s))
            <==> Storable(s, step)
  {
    if Storable(s, step) {
      forall slots ensures ReadFrom(Store(slots, s, step), 0) == Some(s) {
        ReadAfterStore(slots, s, step);
      }
    } else {
      assert Start(0, step) == 0;
      ReadsNothingFrom(s, 0, step);
    }
  }

  /**
   A value of exactly one full part is marked as continued although nothing follows: it reads as
   nothing in an empty keyring, and with a stale second entry appended if there is one.
   */
  lemma FullPartIsLost(s: string, step: nat, slots: Slots)
    requires step >= 1 && |s| == step
    ensures ReadFrom(Store(map[], s, step), 0) == None
    ensures 1 in slots && !EndsWith(slots[1], CONTINUE_MARKER) ==>
              ReadFrom(Store(slots, s, step), 0) == Some(s + slots[1])
  {
    hide Store;
    RemainderOf(1, step, 0);
    ReadsNothingFrom(s, 0, step);
    if 1 in slots && !EndsWith(slots[1], CONTINUE_MARKER) {
      var r := Store(slots, s, step);
      StoredAt(slots, s, step, 0);
      StoredAt(slots, s, step, 1);
      assert s[0..step] == s;
      MarkedEntry(s);
      assert ReadFrom(r, 1) == Some(slots[1]);
    }
  }

  /** With the limits that are in use: values of 1018 characters on Windows, of 131066 elsewhere. */
  lemma LostAtTheLimits(s: string, limit: nat)
    requires limit == KEYCHAIN_ENTRY_LIMIT_WINDOWS || limit == KEYCHAIN_ENTRY_LIMIT_OTHER
    requires |s| == if limit == KEYCHAIN_ENTRY_LIMIT_WINDOWS then 1018 else 131066
    ensures ReadFrom(Store(map[], s, limit - |CONTINUE_MARKER|), 0) == None
    ensures forall t | !EndsWith(t, CONTINUE_MARKER) ::
              ReadFrom(Store(map[1 := t], s, limit - |CONTINUE_MARKER|), 0) == Some(s + t)
  {
    hide Store, ReadFrom;
    var step := limit - |CONTINUE_MARKER|;
    FullPartIsLost(s, step, map[]);
    forall t | !EndsWith(t, CONTINUE_MARKER) ensures ReadFrom(Store(map[1 := t], s, step), 0) == Some(s + t) {
      FullPartIsLost(s, step, map[1 := t]);
    }
  }

  /** No entry written is longer than the keyring allows. */
  lemma EntriesFit(slots: Slots, s: string, limit: nat, j: nat)
    requires limit > |CONTINUE_MARKER| && Start(j, limit - |CONTINUE_MARKER|) < |s|
    ensures var r := Store(slots, s, limit - |CONTINUE_MARKER|); j in r && |r[j]| <= limit
  {
    StoredAt(slots, s, limit - |CONTINUE_MARKER|, j);
  }

  // ----- The storage

  /** Reading gets as far as entry `k`: all entries before it are there and say that there is more. */
  ghost predicate GetsTo(slots: Slots, k: nat) {
    forall j | 0 <= j < k :: j in slots && EndsWith(slots[j], CONTINUE_MARKER)
  }

  /** An entry that reading gets to cannot be read. */
  ghost predicate Blocked(slots: Slots, unreadable: set<nat>) {
    exists k :: k in unreadable && GetsTo(slots, k)
  }

  /** The parts before entry `i`, joined, are `str`; what is stored is `str` and the rest. */
  ghost predicate Joined(slots: Slots, i: nat, str: string) {
    ReadFrom(slots, 0) == match ReadFrom(slots, i) case None => None case Some(rest) => Some(str + rest)
  }

  lemma MarkerFits(part: string)
    requires EndsWith(part, CONTINUE_MARKER)
    ensures |part| >= |CONTINUE_MARKER|
  {
  }

  lemma NothingJoined(slots: Slots)
    ensures Joined(slots, 0, "")
  {
    hide ReadFrom;
    assert ReadFrom(slots, 0).Some? ==> "" + ReadFrom(slots, 0).value == ReadFrom(slots, 0).value;
  }

  lemma JoinNext(slots: Slots, i: nat, str: string)
    requires Joined(slots, i, str) && i in slots && EndsWith(slots[i], CONTINUE_MARKER)
    ensures Joined(slots, i + 1, str + slots[i][..|slots[i]| - |CONTINUE_MARKER|])
  {
    var part := slots[i][..|slots[i]| - |CONTINUE_MARKER|];
    NextRead(slots, i);
    hide ReadFrom, EndsWith;
    if ReadFrom(slots, i + 1).Some? {
      assert str + part + ReadFrom(slots, i + 1).value == str + (part + ReadFrom(slots, i + 1).value);
    }
  }

  lemma NextRead(slots: Slots, i: nat)
    requires i in slots && EndsWith(slots[i], CONTINUE_MARKER)
    ensures ReadFrom(slots, i)
         == match ReadFrom(slots, i + 1)
            case None => None
            case Some(rest) => Some(slots[i][..|slots[i]| - |CONTINUE_MARKER|] + rest)
  {
  }

  lemma JoinEnds(slots: Slots, i: nat, str: string)
    requires Joined(slots, i, str)
    ensures i !in slots ==> ReadFrom(slots, 0) == None
    ensures i in slots && !EndsWith(slots[i], CONTINUE_MARKER) ==> ReadFrom(slots, 0) == Some(str + slots[i])
  {
  }

  /** Storing `s` takes entry `k`. */
  predicate Needs(s: string, step: nat, k: nat) {
    Start(k, step) < |s|
  }

  datatype Outcome<+T> = Ok(value: T) | Err

  class KeyringStorage {
    const limit: nat
    /** Handles opened so far; the handle of entry `k` is its number. */
    var entries: seq<nat>
    /** The keyring itself, and the entries that it fails to read or write. */
    var slots: Slots
    var unreadable: set<nat>
    var unwritable: set<nat>

    ghost predicate Valid()
      reads this
    {
      limit > |CONTINUE_MARKER| && forall k | 0 <= k < |entries| :: entries[k] == k
    }

    constructor (limit: nat, slots: Slots, unreadable: set<nat>, unwritable: set<nat>)
      requires limit > |CONTINUE_MARKER|
      ensures Valid() && this.limit == limit && this.slots == slots && entries == []
      ensures this.unreadable == unreadable && this.unwritable == unwritable
    {
      this.limit := limit;
      this.entries := [];
      this.slots := slots;
      this.unreadable := unreadable;
      this.unwritable := unwritable;
    }

    /** The handle of an entry, opened if it is the next one. */
    method GetNextEntry(i: nat) returns (entry: nat)
      requires Valid() && i <= |entries|
      modifies this`entries
      ensures Valid() && entry == i && i < |entries| && |entries| >= old(|entries|)
    {
      if i >= |entries| {
        entries := entries + [i];
      }
      return entries[i];
    }

    /** Joins the entries; a missing one means that nothing is stored. */
    method Read() returns (r: Outcome<Option<string>>)
      requires Valid()
      modifies this`entries
      ensures Valid() && (r.Ok? ==> r.value == ReadFrom(slots, 0))
      ensures r.Err? <==> Blocked(slots, unreadable)
    {
      hide ReadFrom, EndsWith, From, Joined;
      var str := "";
      var i := 0;
      NothingJoined(slots);
      while true
        invariant Valid() && i <= |entries| && GetsTo(slots, i) && forall k | 0 <= k < i :: k !in unreadable
        invariant Joined(slots, i, str)
        decreases |From(slots, i)|
      {
        var entry := GetNextEntry(i);
        if entry in unreadable {
          return Err;
        }
        JoinEnds(slots, i, str);
        if entry !in slots {
          return Ok(None);
        }
        var nextChunk := slots[entry];
        if !EndsWith(nextChunk, CONTINUE_MARKER) {
          return Ok(Some(str + nextChunk));
        }
        FewerFrom(slots, i);
        JoinNext(slots, i, str);
        MarkerFits(nextChunk);
        str := str + nextChunk[..|nextChunk| - |CONTINUE_MARKER|];
        i := i + 1;
      }
    }

    /** Stores a sealed credential; stops at the first entry that cannot be written, with `done` parts stored. */
    method StoreSealed(sealed: string) returns (ok: bool, ghost done: nat)
      requires Valid()
      modifies this`entries, this`slots
      ensures Valid() && (ok <==> forall k | k in unwritable :: !Needs(sealed, limit - |CONTINUE_MARKER|, k))
      ensures ok ==> slots == Store(old(slots), sealed, limit - |CONTINUE_MARKER|)
      ensures !ok ==> done in unwritable && (forall k | 0 <= k < done :: k !in unwritable)
      ensures !ok ==> StoreFrom(slots, sealed, done, limit - |CONTINUE_MARKER|)
                      == Store(old(slots), sealed, limit - |CONTINUE_MARKER|)
      ensures ok && Storable(sealed, limit - |CONTINUE_MARKER|) ==> ReadFrom(slots, 0) == Some(sealed)
    {
      var stepSize := limit - |CONTINUE_MARKER|;
      var i := 0;
      done := 0;
      while i < |sealed|
        invariant Valid() && i == Start(done, stepSize) && done <= |entries|
        invariant forall k | 0 <= k < done :: k !in unwritable
        invariant StoreFrom(slots, sealed, done, stepSize) == Store(old(slots), sealed, stepSize)
        decreases |sealed| - i
      {
        IndexOfPart(done, stepSize);
        NextPart(done, stepSize);
        var entry := GetNextEntry(i / stepSize);
        if entry in unwritable {
          return false, done;
        }
        var cutoff := i + stepSize;
        if cutoff <= |sealed| {
          slots := slots[entry := sealed[i..cutoff] + CONTINUE_MARKER];
        } else {
          slots := slots[entry := sealed[i..]];
        }
        i := i + stepSize;
        done := done + 1;
      }
      forall k | k in unwritable ensures !Needs(sealed, stepSize, k) {
        PartsAscend(done, k, stepSize);
      }
      if Storable(sealed, stepSize) {
        ReadAfterStore(old(slots), sealed, stepSize);
      }
      ok := true;
    }
  }

  lemma IndexOfPart(k: nat, step: nat)
    requires step >= 1
    ensures (k * step) / step == k
  {
    RemainderOf(k, step, 0);
    var q := (k * step) / step;
    assert k * step == step * q == q * step;
    NextPart(q, step);
    NextPart(k, step);
    if q < k {
      PartsAscend(q + 1, k, step);
    } else if q > k {
      PartsAscend(k + 1, q, step);
    }
  }
}
