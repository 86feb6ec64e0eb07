/**
 * The opening of a game, looked up in the book's opening table from two PGN headers: the ECO
 * code and the URL of the opening's page, whose last path segment names the opening followed
 * by the first moves (`.../Sicilian-Defense-Najdorf-Variation-6.Be3`).
 */
module Openings {
  import opened Wrappers
  import opened Text

  /** An entry of the opening table; the fields besides the ECO code are kept as the name. */
  datatype Opening = Opening(eco: Option<string>, name: string)

  /** The opening table in its file's order, as (key, entry) pairs. */
  type OpeningTable = seq<(string, Opening)>

  /** A table read from a JSON object: no key occurs twice. */
  predicate UniqueKeys(table: OpeningTable) {
    forall i, j :: 0 <= i < j < |table| ==> table[i].0 != table[j].0
  }

  /** A part of the URL's last segment that still belongs to the opening's name: not empty, not a numbered move such as `6.Be3`, and not castling. */
  predicate KeepPart(part: string) {
    && part != []
    && !(IsDigit(part[0]) && '.' in part)
    && part != "O" && part != "O-O" && part != "O-O-O"
  }

  /** The longest prefix of `parts` whose every part is kept. */
  function KeptPrefix(parts: seq<string>): (kept: seq<string>)
    ensures |kept| <= |parts| && kept == parts[..|kept|]
    ensures forall i :: 0 <= i < |kept| ==> KeepPart(kept[i])
    ensures |kept| < |parts| ==> !KeepPart(parts[|kept|])
    decreases |parts|
  {
    if parts == [] || !KeepPart(parts[0]) then []
    else [parts[0]] + KeptPrefix(parts[1..])
  }

  /** The loop that collects the name's parts and stops at the first part that is not kept. */
  method CollectKeyParts(parts: seq<string>) returns (kept: seq<string>)
    ensures kept == KeptPrefix(parts)
  {
    kept := [];
    var i := 0;
    while i < |parts|
      invariant 0 <= i <= |parts|
      invariant kept == parts[..i]
      invariant forall j :: 0 <= j < i ==> KeepPart(parts[j])
      decreases |parts| - i
    {
      if KeepPart(parts[i]) {
        kept := kept + [parts[i]];
        i := i + 1;
      } else {
        break;
      }
    }
    KeptPrefixIsLongest(parts, i);
  }

  /** A prefix of kept parts followed by one that is not kept (or by nothing) is the kept prefix. */
  lemma {:induction false} KeptPrefixIsLongest(parts: seq<string>, n: nat)
    requires n <= |parts|
    requires forall j :: 0 <= j < n ==> KeepPart(parts[j])
    requires n < |parts| ==> !KeepPart(parts[n])
    ensures KeptPrefix(parts) == parts[..n]
    decreases n
  {
    if n > 0 {
      KeptPrefixIsLongest(parts[1..], n - 1);
      assert parts[..n] == [parts[0]] + parts[1..][..n - 1];
    }
  }

  /** The last `/`-separated segment of the URL. */
  function LastSegment(url: string): string {
    var segments := Split(url, '/');
    segments[|segments| - 1]
  }

  /** The table key named by the URL: the kept parts of its last segment joined by `-`. */
  function OpeningKey(url: string): string {
    Join(KeptPrefix(Split(LastSegment(url), '-')), '-')
  }

  /** The entry stored under `key` (a dictionary lookup: the first entry with that key). */
  function Lookup(table: OpeningTable, key: string): (r: Option<Opening>)
    ensures r.Some? <==> exists i :: 0 <= i < |table| && table[i].0 == key
    ensures r.Some? ==> exists i :: 0 <= i < |table| && table[i] == (key, r.value)
    decreases |table|
  {
    if table == [] then None
    else if table[0].0 == key then Some(table[0].1)
    else
      var r := Lookup(table[1..], key);
      assert forall i :: 1 <= i < |table| ==> table[i] == table[1..][i - 1];
      r
  }

  /** In a table with unique keys the lookup returns the one entry stored under the key. */
  lemma {:induction false} LookupUnique(table: OpeningTable, i: nat)
    requires UniqueKeys(table) && i < |table|
    ensures Lookup(table, table[i].0) == Some(table[i].1)
    decreases |table|
  {
    if i > 0 && table[0].0 != table[i].0 {
      assert table[i] == table[1..][i - 1];
      LookupUnique(table[1..], i - 1);
    }
  }

  /** An entry the fallback accepts: the same ECO code, and a key contained in the URL's key. */
  predicate FallbackMatch(entry: (string, Opening), eco: string, key: string) {
    entry.1.eco == Some(eco) && Contains(key, entry.0)
  }

  /** The first entry, in table order, the fallback accepts. */
  function FirstFallback(table: OpeningTable, eco: string, key: string): (r: Option<Opening>)
    ensures r.Some? <==> exists i :: 0 <= i < |table| && FallbackMatch(table[i], eco, key)
    ensures r.Some? ==> r.value.eco == Some(eco)
    decreases |table|
  {
    if table == [] then None
    else if FallbackMatch(table[0], eco, key) then Some(table[0].1)
    else
      var r := FirstFallback(table[1..], eco, key);
      assert forall i :: 1 <= i < |table| ==> table[i] == table[1..][i - 1];
      r
  }

  /** The lookup as a whole: the primary hit when its ECO code agrees, else the first fallback match. */
  function OpeningFor(ecoUrl: Option<string>, eco: Option<string>, table: OpeningTable): Option<Opening> {
    var url := if ecoUrl.Some? then ecoUrl.value else "";
    var code := if eco.Some? then eco.value else "";
    if url == [] || code == [] then None
    else
      var key := OpeningKey(url);
      var primary := Lookup(table, key);
      if primary.Some? && primary.value.eco == Some(code) then primary
      else FirstFallback(table, code, key)
  }

  /**
   * `_find_opening_data`: a missing or empty `ECOUrl` or `ECO` header finds nothing; otherwise
   * the primary lookup by key, then a scan of the table in order.
   */
  method FindOpeningData(ecoUrl: Option<string>, eco: Option<string>, table: OpeningTable) returns (r: Option<Opening>)
    ensures r == OpeningFor(ecoUrl, eco, table)
  {
    var url := if ecoUrl.Some? then ecoUrl.value else "";
    var code := if eco.Some? then eco.value else "";
    if url == [] || code == [] {
      return None;
    }
    var kept := CollectKeyParts(Split(LastSegment(url), '-'));
    var key := Join(kept, '-');
    var primary := Lookup(table, key);
    if primary.Some? && primary.value.eco == Some(code) {
      return primary;
    }
    var i := 0;
    while i < |table|
      invariant 0 <= i <= |table|
      invariant FirstFallback(table, code, key) == FirstFallback(table[i..], code, key)
      decreases |table| - i
    {
      FallbackFrom(table, code, key, i);
      if table[i].1.eco == Some(code) && Contains(key, table[i].0) {
        return Some(table[i].1);
      }
      i := i + 1;
    }
    return None;
  }

  /** One step of the fallback scan: the entry at `i` if it matches, else the scan from `i + 1`. */
  lemma FallbackFrom(table: OpeningTable, code: string, key: string, i: nat)
    requires i < |table|
    ensures FirstFallback(table[i..], code, key) ==
      if FallbackMatch(table[i], code, key) then Some(table[i].1) else FirstFallback(table[i + 1..], code, key)
  {
    assert table[i..][1..] == table[i + 1..];
  }

  /** Whatever is found carries the game's ECO code, and nothing is found without both headers. */
  lemma FoundHasTheGamesCode(ecoUrl: Option<string>, eco: Option<string>, table: OpeningTable)
    ensures OpeningFor(ecoUrl, eco, table).Some? ==>
      eco.Some? && eco.value != [] && ecoUrl.Some? && ecoUrl.value != [] && OpeningFor(ecoUrl, eco, table).value.eco == eco
  {
  }

  /** A primary hit whose ECO code agrees wins over every fallback entry. */
  lemma PrimaryHitWins(url: string, code: string, table: OpeningTable, i: nat)
    requires url != [] && code != []
    requires i < |table| && table[i].0 == OpeningKey(url) && table[i].1.eco == Some(code)
    requires forall j :: 0 <= j < |table| && j != i ==> table[j].0 != table[i].0
    ensures OpeningFor(Some(url), Some(code), table) == Some(table[i].1)
  {
    var key := OpeningKey(url);
    var r := Lookup(table, key);
    var j :| 0 <= j < |table| && table[j] == (key, r.value);
  }

  /** Nothing is found when no entry has the game's ECO code. */
  lemma UnknownCodeFindsNothing(ecoUrl: Option<string>, code: string, table: OpeningTable)
    requires forall i :: 0 <= i < |table| ==> table[i].1.eco != Some(code)
    ensures OpeningFor(ecoUrl, Some(code), table) == None
  {
  }

  /** The key stops at the first numbered move: `Sicilian-Defense-6.Be3` has key `Sicilian-Defense`. */
  lemma KeyStopsAtNumberedMove(name: seq<string>, move: string, rest: seq<string>)
    requires forall i :: 0 <= i < |name| ==> KeepPart(name[i])
    requires move != [] && IsDigit(move[0]) && '.' in move
    ensures KeptPrefix(name + [move] + rest) == name
  {
    var parts := name + [move] + rest;
    assert parts[..|name|] == name;
    assert parts[|name|] == move;
    KeptPrefixIsLongest(parts, |name|);
  }
}
