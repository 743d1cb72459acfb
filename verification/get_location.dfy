/**
 * src/GetLocation.cpp: the Olson-to-POSIX time-zone lookup (an FNV-1a hash
 * masked to 21 bits, then a binary search of the `zones` table) and
 * `getLocation`, which asks a geolocation service for the watch's city and
 * time zone at most once per rate-limit interval.
 *
 * The HTTP request and the JSON reply are not modelled: their outcomes are
 * parameters (whether `http.begin` succeeded, the response code, and the
 * `timezone` and `city` strings of the reply).
 */
module GetLocation {

  import opened Watchy
  import opened TzTable

  const FNV_PRIME: bv32 := 16777619
  const OFFSET_BASIS: bv32 := 2166136261

  /** `LOCATION_UPDATE_INTERVAL`, meant as five minutes in milliseconds; `now()` counts seconds. */
  const LOCATION_UPDATE_INTERVAL := 5 * 60 * 1000

  /** `DEFAULT_TIMEZONE` of src/config.h: Melbourne. */
  const DEFAULT_TIMEZONE := "AEST-10AEDT,M10.1.0,M4.1.0/3"

  /** `sizeof(location::city)`. */
  const CITY_SIZE := 30

  // ---------------------------------------------------------------------
  // C strings

  /** The position of the terminating NUL of a C string. */
  function NulIndex(s: seq<bv8>): (n: nat)
    requires 0 in s
    ensures n < |s| && s[n] == 0
    ensures forall k :: 0 <= k < n ==> s[k] != 0
  {
    if s[0] == 0 then 0 else 1 + NulIndex(s[1..])
  }

  /** The characters of a C string, without its terminator. */
  function CStr(s: seq<bv8>): seq<bv8>
    requires 0 in s
  {
    s[..NulIndex(s)]
  }

  // ---------------------------------------------------------------------
  // The FNV-1a hash (src/GetLocation.cpp:739-752)

  /** One FNV-1a round: xor the byte in, then multiply by the prime, modulo 2^32. */
  function Step(hash: bv32, b: bv8): bv32
  {
    (hash ^ (b as bv32)) * FNV_PRIME
  }

  /** FNV-1a over `s`: start at the offset basis, then one round per byte. */
  function Fnv(s: seq<bv8>): bv32
    decreases |s|
  {
    if s == [] then OFFSET_BASIS else Step(Fnv(s[..|s| - 1]), s[|s| - 1])
  }

  /**
   * The published FNV-1a 32-bit test vectors: the empty string hashes to the
   * offset basis, "a" to 0xe40c292c and "foobar" to 0xbf9cf968.
   */
  lemma FnvReference()
    ensures Fnv([]) == 0x811c9dc5
    ensures Fnv([0x61]) == 0xe40c292c
    ensures Fnv([0x66, 0x6f, 0x6f, 0x62, 0x61, 0x72]) == 0xbf9cf968
  {
    var a: seq<bv8> := [0x61];
    FnvEmpty(a);
    FnvSnoc(a, 0);
    assert a[..1] == a;
    var s: seq<bv8> := [0x66, 0x6f, 0x6f, 0x62, 0x61, 0x72];
    FnvEmpty(s);
    FnvFoo(s);
    FnvBar(s);
    assert s[..6] == s;
  }

  lemma FnvFoo(s: seq<bv8>)
    requires |s| == 6 && Fnv(s[..0]) == 0x811c9dc5 && s[0] == 0x66 && s[1] == 0x6f && s[2] == 0x6f
    ensures Fnv(s[..3]) == 0xa9f37ed7
  {
    FnvSnoc(s, 0);
    assert Step(0x811c9dc5, 0x66) == 0xe30c2799;
    FnvSnoc(s, 1);
    assert Step(0xe30c2799, 0x6f) == 0x6222e842;
    FnvSnoc(s, 2);
    assert Step(0x6222e842, 0x6f) == 0xa9f37ed7;
  }

  lemma FnvBar(s: seq<bv8>)
    requires |s| == 6 && Fnv(s[..3]) == 0xa9f37ed7 && s[3] == 0x62 && s[4] == 0x61 && s[5] == 0x72
    ensures Fnv(s[..6]) == 0xbf9cf968
  {
    FnvSnoc(s, 3);
    assert Step(0xa9f37ed7, 0x62) == 0x3f5076ef;
    FnvSnoc(s, 4);
    assert Step(0x3f5076ef, 0x61) == 0x39aaa18a;
    FnvSnoc(s, 5);
    assert Step(0x39aaa18a, 0x72) == 0xbf9cf968;
  }

  /** `fnvHash`: the loop walks the string up to, and not including, its NUL. */
  method FnvHash(str: seq<bv8>) returns (hash: bv32)
    requires 0 in str
    ensures hash == Fnv(CStr(str))
  {
    hash := OFFSET_BASIS;
    var i := 0;
    while str[i] != 0
      invariant i <= NulIndex(str)
      invariant hash == Fnv(str[..i])
      decreases NulIndex(str) - i
    {
      FnvSnoc(str, i);
      hash := Step(hash, str[i]);
      i := i + 1;
    }
  }

  lemma MaskedKey(h: bv32)
    ensures (h & Mask) as int < 0x200000
  {
    assert h & Mask < 0x200000;
  }

  /** The lookup key of a name: its hash masked to 21 bits, so one of the table's key values. */
  function Key(olson: seq<bv8>): (k: int)
    requires 0 in olson
    ensures 0 <= k < 0x200000
  {
    var h := Fnv(CStr(olson));
    MaskedKey(h);
    (h & Mask) as int
  }

  // ---------------------------------------------------------------------
  // The table lookup (src/GetLocation.cpp:754-777)

  /** Every entry of `table` names one of `n` POSIX strings. */
  predicate IndexesInto(table: seq<Zone>, n: int)
  {
    forall j :: 0 <= j < |table| ==> 0 <= table[j].posix < n
  }

  /**
   * The reference lookup the binary search must agree with: the first entry
   * whose hash is the key, scanning from the start, or `"UTC0"`.
   */
  function LinearLookup(table: seq<Zone>, posix: seq<string>, key: int): string
    requires IndexesInto(table, |posix|)
    decreases |table|
  {
    if table == [] then "UTC0"
    else if table[0].hash == key then posix[table[0].posix]
    else LinearLookup(table[1..], posix, key)
  }

  /**
   * On a table with strictly ascending hashes the reference lookup returns
   * the string of the one entry with the key, and `"UTC0"` when there is none.
   */
  lemma {:induction false} LinearLookupFinds(table: seq<Zone>, posix: seq<string>, key: int)
    requires Ascending(table) && IndexesInto(table, |posix|)
    ensures forall j :: 0 <= j < |table| && table[j].hash == key ==> LinearLookup(table, posix, key) == posix[table[j].posix]
    ensures (forall j :: 0 <= j < |table| ==> table[j].hash != key) ==> LinearLookup(table, posix, key) == "UTC0"
    decreases |table|
  {
    if table != [] {
      var rest := table[1..];
      assert forall j :: 0 <= j < |rest| ==> rest[j] == table[j + 1];
      LinearLookupFinds(rest, posix, key);
    }
  }

  /**
   * The binary search of `getPosixTZforOlson` over a non-empty table sorted
   * by hash: `i` and `x` bracket the candidates while `x - i > 1`, and the
   * entry left at `i` is compared with the key at the end.
   */
  method Search(table: seq<Zone>, posix: seq<string>, key: int) returns (tz: string)
    requires |table| > 0 && Ascending(table) && IndexesInto(table, |posix|)
    ensures tz == LinearLookup(table, posix, key)
  {
    var i := 0;
    var x := |table|;
    while x - i > 1
      invariant 0 <= i < x <= |table|
      invariant forall j :: 0 <= j < |table| && table[j].hash == key ==> i <= j < x
    {
      var m := i + (x - i) / 2;
      if table[m].hash > key {
        x := m;
      } else {
        i := m;
      }
    }
    LinearLookupFinds(table, posix, key);
    if table[i].hash == key {
      return posix[table[i].posix];
    }
    return "UTC0";
  }

  /** The POSIX string the zone tables give an Olson name; `"UTC0"` for a name they do not know. */
  function TimezoneOf(olson: seq<bv8>): string
    requires 0 in olson
  {
    ZonesWellFormed();
    LinearLookup(Zones, Posix, Key(olson))
  }

  /** The lookup of any name is one of the 101 POSIX strings, or `"UTC0"`. */
  lemma TimezoneIsKnown(olson: seq<bv8>)
    requires 0 in olson
    ensures TimezoneOf(olson) == "UTC0" || TimezoneOf(olson) in Posix
    ensures forall j :: 0 <= j < |Zones| && Zones[j].hash == Key(olson) && 0 <= Zones[j].posix < |Posix| ==>
              TimezoneOf(olson) == Posix[Zones[j].posix]
  {
    ZonesWellFormed();
    LinearLookupFinds(Zones, Posix, Key(olson));
    if TimezoneOf(olson) != "UTC0" {
      var j := FoundAt(Zones, Posix, Key(olson));
      assert TimezoneOf(olson) == Posix[Zones[j].posix];
    }
  }

  /** Where the reference lookup found its answer, when it found one. */
  lemma {:induction false} FoundAt(table: seq<Zone>, posix: seq<string>, key: int) returns (j: nat)
    requires IndexesInto(table, |posix|) && LinearLookup(table, posix, key) != "UTC0"
    ensures j < |table| && table[j].hash == key && LinearLookup(table, posix, key) == posix[table[j].posix]
    decreases |table|
  {
    if table[0].hash == key {
      j := 0;
    } else {
      var rest := table[1..];
      assert IndexesInto(rest, |posix|) by {
        assert forall k :: 0 <= k < |rest| ==> rest[k] == table[k + 1];
      }
      var k := FoundAt(rest, posix, key);
      j := k + 1;
    }
  }

  /** The bytes of the Olson name "Australia/Melbourne". */
  const MELBOURNE: seq<bv8> := [65, 117, 115, 116, 114, 97, 108, 105, 97, 47, 77, 101, 108, 98, 111, 117, 114, 110, 101]

  /**
   * The hash and the table agree on the default location: the key of
   * "Australia/Melbourne" is that of entry 346 of `zones`, whose POSIX string
   * is `DEFAULT_TIMEZONE`.
   */
  lemma MelbourneIsDefault()
    ensures Key(MELBOURNE + [0]) == 1196657
    ensures |Zones| == 595 && Zones[346] == Zone(1196657, 36) && Posix[36] == DEFAULT_TIMEZONE
  {
    MelbourneKey();
    MelbourneEntry();
  }

  lemma MelbourneKey()
    ensures Key(MELBOURNE + [0]) == 1196657
  {
    MelbourneCStr();
    MelbourneFnv();
    assert (3570549361 as bv32) & Mask == 1196657;
  }

  lemma MelbourneCStr()
    ensures 0 in MELBOURNE + [0] && CStr(MELBOURNE + [0]) == MELBOURNE
  {
    var s := MELBOURNE + [0];
    assert s[19] == 0;
    assert forall k :: 0 <= k < 19 ==> s[k] != 0;
    assert s[..19] == MELBOURNE;
  }

  lemma MelbourneFnv()
    ensures Fnv(MELBOURNE) == 3570549361
  {
    MelbourneBytes();
    FnvOfMelbourne(MELBOURNE);
  }

  lemma MelbourneBytes()
    ensures var s := MELBOURNE;
            |s| == 19 && s[0] == 65 && s[1] == 117 && s[2] == 115 && s[3] == 116 && s[4] == 114 && s[5] == 97 && s[6] == 108 && s[7] == 105 && s[8] == 97 && s[9] == 47 && s[10] == 77 && s[11] == 101 && s[12] == 108 && s[13] == 98 && s[14] == 111 && s[15] == 117 && s[16] == 114 && s[17] == 110 && s[18] == 101
  {
  }

  lemma FnvOfMelbourne(s: seq<bv8>)
    requires |s| == 19
    requires s[0] == 65 && s[1] == 117 && s[2] == 115 && s[3] == 116 && s[4] == 114 && s[5] == 97 && s[6] == 108 && s[7] == 105 && s[8] == 97 && s[9] == 47 && s[10] == 77 && s[11] == 101 && s[12] == 108 && s[13] == 98 && s[14] == 111 && s[15] == 117 && s[16] == 114 && s[17] == 110 && s[18] == 101
    ensures Fnv(s) == 3570549361
  {
    assert s[..19] == s;
    FnvEmpty(s);
    MelbourneHash1(s);
    MelbourneHash2(s);
    MelbourneHash3(s);
    MelbourneHash4(s);
  }

  lemma MelbourneEntry()
    ensures |Zones| == 595 && Zones[346] == Zone(1196657, 36) && Posix[36] == DEFAULT_TIMEZONE
  {
    ZonesWellFormed();
    assert Chunk8[26] == Zone(1196657, 36);
    assert Zones[346] == Chunk8[26];
    assert Posix[36] == Posix0[36];
  }

  lemma FnvEmpty(s: seq<bv8>)
    ensures Fnv(s[..0]) == OFFSET_BASIS
  {
    assert s[..0] == [];
  }

  lemma MelbourneHash1(s: seq<bv8>)
    requires |s| == 19 && Fnv(s[..0]) == 2166136261
    requires s[0] == 65 && s[1] == 117 && s[2] == 115 && s[3] == 116 && s[4] == 114
    ensures Fnv(s[..5]) == 3382240258
  {
    FnvSnoc(s, 0);
    assert Step(2166136261, 65) == 3289118412;
    FnvSnoc(s, 1);
    assert Step(3289118412, 117) == 1473602875;
    FnvSnoc(s, 2);
    assert Step(1473602875, 115) == 2364436568;
    FnvSnoc(s, 3);
    assert Step(2364436568, 116) == 123376964;
    FnvSnoc(s, 4);
    assert Step(123376964, 114) == 3382240258;
  }

  lemma MelbourneHash2(s: seq<bv8>)
    requires |s| == 19 && Fnv(s[..5]) == 3382240258
    requires s[5] == 97 && s[6] == 108 && s[7] == 105 && s[8] == 97 && s[9] == 47
    ensures Fnv(s[..10]) == 3030278194
  {
    FnvSnoc(s, 5);
    assert Step(3382240258, 97) == 3199174617;
    FnvSnoc(s, 6);
    assert Step(3199174617, 108) == 3813843439;
    FnvSnoc(s, 7);
    assert Step(3813843439, 105) == 1628718578;
    FnvSnoc(s, 8);
    assert Step(1628718578, 97) == 1709803113;
    FnvSnoc(s, 9);
    assert Step(1709803113, 47) == 3030278194;
  }

  lemma MelbourneHash3(s: seq<bv8>)
    requires |s| == 19 && Fnv(s[..10]) == 3030278194
    requires s[10] == 77 && s[11] == 101 && s[12] == 108 && s[13] == 98 && s[14] == 111
    ensures Fnv(s[..15]) == 2410014959
  {
    FnvSnoc(s, 10);
    assert Step(3030278194, 77) == 3562137581;
    FnvSnoc(s, 11);
    assert Step(3562137581, 101) == 3304028952;
    FnvSnoc(s, 12);
    assert Step(3304028952, 108) == 2030000028;
    FnvSnoc(s, 13);
    assert Step(2030000028, 98) == 2012710106;
    FnvSnoc(s, 14);
    assert Step(2012710106, 111) == 2410014959;
  }

  lemma MelbourneHash4(s: seq<bv8>)
    requires |s| == 19 && Fnv(s[..15]) == 2410014959
    requires s[15] == 117 && s[16] == 114 && s[17] == 110 && s[18] == 101
    ensures Fnv(s[..19]) == 3570549361
  {
    FnvSnoc(s, 15);
    assert Step(2410014959, 117) == 3157076590;
    FnvSnoc(s, 16);
    assert Step(3157076590, 114) == 1461275156;
    FnvSnoc(s, 17);
    assert Step(1461275156, 110) == 2530229774;
    FnvSnoc(s, 18);
    assert Step(2530229774, 101) == 3570549361;
  }

  lemma FnvSnoc(s: seq<bv8>, k: nat)
    requires k < |s|
    ensures Fnv(s[..k + 1]) == Step(Fnv(s[..k]), s[k])
  {
    assert s[..k + 1][..k] == s[..k];
  }

  // ---------------------------------------------------------------------
  // getLocation (src/GetLocation.cpp:778-837)

  /**
   * `strncpy(dst, src, n)` into an `n`-byte buffer, with `src` the characters
   * of a C string: the first `n` characters are copied and the rest of the
   * buffer is filled with NULs.
   */
  function StrNCopy(src: string, n: nat): (dst: string)
    ensures |dst| == n
    ensures forall k :: 0 <= k < n ==> dst[k] == if k < |src| then src[k] else '\0'
  {
    if |src| >= n then src[..n] else src + seq(n - |src|, _ => '\0')
  }

  /**
   * A city name of 30 characters or more fills the buffer and leaves it
   * without a terminator; a shorter one is copied whole and terminated.
   */
  lemma CityTerminatedIffShort(city: string)
    requires '\0' !in city
    ensures '\0' in StrNCopy(city, CITY_SIZE) <==> |city| < CITY_SIZE
    ensures |city| < CITY_SIZE ==> StrNCopy(city, CITY_SIZE)[..|city| + 1] == city + ['\0']
  {
    var dst := StrNCopy(city, CITY_SIZE);
    if |city| < CITY_SIZE {
      assert dst[|city|] == '\0';
    } else {
      assert forall k :: 0 <= k < CITY_SIZE ==> dst[k] == city[k];
    }
  }

  /** `now() - lastGetLocationTS < LOCATION_UPDATE_INTERVAL`. */
  predicate TooSoon(now: int, last: int)
  {
    now - last < LOCATION_UPDATE_INTERVAL
  }

  /**
   * The rate limit holds requests back for exactly `LOCATION_UPDATE_INTERVAL`
   * `now()` units after the last successful fetch, and once a request is
   * let through, every later one is too.
   */
  lemma RateLimitWindow(now: int, later: int, last: int)
    ensures TooSoon(last, last)
    ensures TooSoon(last + LOCATION_UPDATE_INTERVAL - 1, last) && !TooSoon(last + LOCATION_UPDATE_INTERVAL, last)
    ensures now <= later && !TooSoon(now, last) ==> !TooSoon(later, last)
  {
  }

  /** What `getLocation` does while it holds the radio. */
  function FetchTrace(beginOk: bool, httpCode: int, loc: Location): seq<Action>
  {
    if beginOk && httpCode == 200 then [Sent(LocationUpdate(loc))] else []
  }

  /** The location a 200 reply carries, looked up in the given tables. */
  function Located(zones: seq<Zone>, posix: seq<string>, olson: seq<bv8>, city: string): Location
    requires IndexesInto(zones, |posix|) && 0 in olson
  {
    Location(LinearLookup(zones, posix, Key(olson)), StrNCopy(city, CITY_SIZE))
  }

  /** Everything `getLocation` does to the trace: nothing when it is too soon, else a `Held` request. */
  function LocationTrace(count: int, tooSoon: bool, connectOk: bool, beginOk: bool, httpCode: int, loc: Location): seq<Action>
  {
    if tooSoon then [] else Held(count, connectOk, FetchTrace(beginOk, httpCode, loc))
  }

  /**
   * Every successful `getWiFi` of `getLocation` is matched by one
   * `releaseWiFi`, on every path.
   */
  lemma LocationTracePaired(count: int, tooSoon: bool, connectOk: bool, beginOk: bool, httpCode: int, loc: Location)
    requires 0 <= count < UINT_RANGE
    ensures Balanced(LocationTrace(count, tooSoon, connectOk, beginOk, httpCode, loc))
  {
    var inner := FetchTrace(beginOk, httpCode, loc);
    assert multiset(inner)[WiFiGot(true)] == 0 && multiset(inner)[WiFiReleased] == 0;
    HeldPairs(count, connectOk, inner);
  }

  /**
   * With the radio already held (a count that is neither 0 nor about to
   * wrap), `getLocation` neither connects nor switches the radio off.
   */
  lemma NestedLocationKeepsRadio(count: int, tooSoon: bool, connectOk: bool, beginOk: bool, httpCode: int, loc: Location)
    requires 1 <= count < UINT_RANGE - 1
    ensures forall a :: a in LocationTrace(count, tooSoon, connectOk, beginOk, httpCode, loc) ==> !a.ConnectWiFi? && a != RadioOff
  {
    if !tooSoon {
      assert GetWiFiTrace(count, connectOk) == [WiFiGot(true)];
      assert ReleaseTrace(Acquire(count, connectOk).1) == [WiFiReleased];
      assert LocationTrace(count, tooSoon, connectOk, beginOk, httpCode, loc)
          == [WiFiGot(true)] + FetchTrace(beginOk, httpCode, loc) + [WiFiReleased];
    }
  }

  /** The error code a `getLocation` that got past the rate limit leaves. */
  function FetchError(wifiOk: bool, beginOk: bool, httpCode: int): Error
  {
    if !wifiOk then WIFI_FAILED
    else if !beginOk || httpCode != 200 then REQUEST_FAILED
    else OK
  }

  /** The state of the `Watchy_GetLocation` namespace: its two tables and its retained globals. */
  class LocationService {
    /** `zones`. */
    const zones: seq<Zone>
    /** `posix`. */
    const posix: seq<string>
    /** `lastGetLocationTS`: when the last lookup succeeded. */
    var lastGetLocationTS: int
    /** `currentLocation`; the `LOCATION_UPDATE` handler that replaces it is not part of this model. */
    var currentLocation: Location

    /** What the lookup relies on: a non-empty table sorted by hash whose entries index `posix`. */
    predicate Valid()
      reads this
    {
      |zones| > 0 && Ascending(zones) && IndexesInto(zones, |posix|)
    }

    constructor ()
      ensures Valid() && zones == Zones && posix == Posix
      ensures lastGetLocationTS == 0
      ensures currentLocation == Location(DEFAULT_TIMEZONE, StrNCopy("Melbourne", CITY_SIZE))
    {
      ZonesWellFormed();
      zones := Zones;
      posix := Posix;
      lastGetLocationTS := 0;
      currentLocation := Location(DEFAULT_TIMEZONE, StrNCopy("Melbourne", CITY_SIZE));
    }

    /**
     * `getPosixTZforOlson` (src/GetLocation.cpp:760-777): the POSIX string
     * of the zone whose hash is the key of `olson`, and `"UTC0"` when no
     * zone has that hash.  The result is never null, so the
     * `REQUEST_FAILED` branch of `getLocation` that tests it cannot be taken.
     */
    method GetPosixTZforOlson(olson: seq<bv8>) returns (tz: string)
      requires Valid() && 0 in olson
      ensures tz == LinearLookup(zones, posix, Key(olson))
    {
      var hash := FnvHash(olson);
      tz := Search(zones, posix, (hash & Mask) as int);
    }

    /**
     * `getLocation`.  `checkTime` and `doneTime` are the two readings of
     * `now()`; `connectOk` is the outcome of `connectWiFi` if it is called;
     * `beginOk` and `httpCode` are those of the request, and `olson` and
     * `city` the strings of a 200 reply.
     */
    method GetLocation(sys: System, checkTime: int, doneTime: int, connectOk: bool,
                       beginOk: bool, httpCode: int, olson: seq<bv8>, city: string)
      requires Valid() && sys.Valid() && 0 in olson
      modifies this, sys
      ensures sys.Valid() && sys.wifiCount == old(sys.wifiCount)
      ensures sys.screen == old(sys.screen) && sys.tasks == old(sys.tasks) && sys.callbacks == old(sys.callbacks)
      ensures currentLocation == old(currentLocation)
      ensures sys.log == old(sys.log) + LocationTrace(old(sys.wifiCount), TooSoon(checkTime, old(lastGetLocationTS)),
                                                      connectOk, beginOk, httpCode, Located(zones, posix, olson, city))
      ensures sys.err == if TooSoon(checkTime, old(lastGetLocationTS)) then RATE_LIMITED
                         else FetchError(Acquire(old(sys.wifiCount), connectOk).0, beginOk, httpCode)
      ensures lastGetLocationTS == if sys.err == OK then doneTime else old(lastGetLocationTS)
    {
      if checkTime - lastGetLocationTS < LOCATION_UPDATE_INTERVAL {
        sys.err := RATE_LIMITED;
        return;
      }
      ghost var count := sys.wifiCount;
      var ok := sys.GetWiFi(connectOk);
      if !ok {
        sys.err := WIFI_FAILED;
        AppendHeld(old(sys.log), count, connectOk, FetchTrace(beginOk, httpCode, Located(zones, posix, olson, city)));
        return;
      }
      Fetch(sys, doneTime, beginOk, httpCode, olson, city);
      sys.ReleaseWiFi();
      AppendHeld(old(sys.log), count, connectOk, FetchTrace(beginOk, httpCode, Located(zones, posix, olson, city)));
    }

    /** The request `getLocation` makes while it holds the radio (src/GetLocation.cpp:793-834). */
    method Fetch(sys: System, doneTime: int, beginOk: bool, httpCode: int, olson: seq<bv8>, city: string)
      requires Valid() && 0 in olson
      modifies this, sys
      ensures sys.err == FetchError(true, beginOk, httpCode)
      ensures sys.log == old(sys.log) + FetchTrace(beginOk, httpCode, Located(zones, posix, olson, city))
      ensures lastGetLocationTS == if sys.err == OK then doneTime else old(lastGetLocationTS)
      ensures sys.wifiCount == old(sys.wifiCount) && sys.screen == old(sys.screen)
      ensures sys.tasks == old(sys.tasks) && sys.callbacks == old(sys.callbacks)
      ensures currentLocation == old(currentLocation)
    {
      if !beginOk {
        sys.err := REQUEST_FAILED;
      } else if httpCode == 200 {
        var tz := GetPosixTZforOlson(olson);
        var loc := Location(tz, StrNCopy(city, CITY_SIZE));
        sys.Send(LocationUpdate(loc));
        lastGetLocationTS := doneTime;
        sys.err := OK;
      } else {
        sys.err := REQUEST_FAILED;
      }
    }
  }
}
