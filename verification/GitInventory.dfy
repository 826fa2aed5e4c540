/** The parser for the NUL-separated output of `git ls-tree -z`, against the printer it inverts. */
module GitInventory {
  import opened Text
  import opened Names

  const NUL: byte := 0
  const TAB: byte := 9
  const SPACE: byte := 32
  const MAX_TRACKED_FILES := 100_000

  const BLOB: seq<byte> := [98, 108, 111, 98]
  const PLAIN_MODE: seq<byte> := [49, 48, 48, 54, 52, 52]       // 100644
  const EXECUTABLE_MODE: seq<byte> := [49, 48, 48, 55, 53, 53]  // 100755

  datatype Entry = Entry(path: string, executable: bool, objectId: seq<byte>)

  /** Strict UTF-8, both ways. */
  datatype Utf8 = Utf8(decode: seq<byte> -> Option<string>, encode: string -> seq<byte>)

  ghost predicate Lawful(u: Utf8) {
    && (forall b: seq<byte> :: u.decode(b).Some? ==> u.encode(u.decode(b).value) == b)
    && (forall s: string :: u.decode(u.encode(s)) == Some(s))
    && (forall s: string :: '\0' !in s ==> NUL !in u.encode(s))
  }

  // ---------------------------------------------------------------- splitting

  /** `bytes.split(sep)`. */
  function SplitOn(s: seq<byte>, b: byte): (parts: seq<seq<byte>>)
    ensures parts != []
    decreases |s|
  {
    if b !in s then [s]
    else
      var i := IndexOf(s, b);
      [s[..i]] + SplitOn(s[i + 1..], b)
  }

  function JoinWith(parts: seq<seq<byte>>, b: byte): seq<byte>
    requires parts != []
  {
    if |parts| == 1 then parts[0] else parts[0] + [b] + JoinWith(parts[1..], b)
  }

  lemma {:induction false} JoinSplit(s: seq<byte>, b: byte)
    ensures JoinWith(SplitOn(s, b), b) == s
    ensures forall p :: p in SplitOn(s, b) ==> b !in p
    decreases |s|
  {
    if b in s {
      var i := IndexOf(s, b);
      JoinSplit(s[i + 1..], b);
      assert s == s[..i] + [b] + s[i + 1..];
      var rest := SplitOn(s[i + 1..], b);
      assert ([s[..i]] + rest)[1..] == rest;
    }
  }

  lemma {:induction false} SplitJoin(parts: seq<seq<byte>>, b: byte)
    requires parts != [] && forall p :: p in parts ==> b !in p
    ensures SplitOn(JoinWith(parts, b), b) == parts
    decreases |parts|
  {
    hide IndexOf;
    if |parts| > 1 {
      var rest := JoinWith(parts[1..], b);
      var s := parts[0] + [b] + rest;
      IndexOfSplit(parts[0], b, rest);
      assert s[..|parts[0]|] == parts[0] && s[|parts[0]| + 1..] == rest;
      SplitJoin(parts[1..], b);
    }
  }

  // ---------------------------------------------------------------- one entry

  datatype Rules = Rules(utf8: Utf8, tables: Tables, objectLength: nat)

  ghost predicate Sound(rules: Rules) {
    Lawful(rules.utf8) && RejectsNul(rules.tables)
  }

  predicate IsHex(id: seq<byte>) {
    forall i :: 0 <= i < |id| ==> 48 <= id[i] <= 57 || 97 <= id[i] <= 102
  }

  predicate SafePath(t: Tables, path: string) {
    && path != [] && path[0] != '-'
    && t.normalize(path) == Some(path)
    && t.nfc(path) == path
    && !t.sensitive(path)
  }

  predicate ValidEntry(rules: Rules, e: Entry) {
    && IsHex(e.objectId) && |e.objectId| == rules.objectLength
    && SafePath(rules.tables, e.path)
  }

  function ModeText(executable: bool): seq<byte> {
    if executable then EXECUTABLE_MODE else PLAIN_MODE
  }

  /** `<mode> blob <object>\t<path>`. */
  function Body(rules: Rules, e: Entry): seq<byte> {
    Header(e) + [TAB] + rules.utf8.encode(e.path)
  }

  function Header(e: Entry): seq<byte> {
    ModeText(e.executable) + [SPACE] + (BLOB + [SPACE] + e.objectId)
  }

  function ParseBody(rules: Rules, raw: seq<byte>): Option<Entry> {
    if TAB !in raw then None
    else
      var i := IndexOf(raw, TAB);
      var fields := SplitOn(raw[..i], SPACE);
      var path := rules.utf8.decode(raw[i + 1..]);
      if |fields| != 3 || path.None? then None
      else if fields[1] != BLOB || (fields[0] != PLAIN_MODE && fields[0] != EXECUTABLE_MODE) then None
      else if |fields[2]| != rules.objectLength || !IsHex(fields[2]) then None
      else if !SafePath(rules.tables, path.value) then None
      else Some(Entry(path.value, fields[0] == EXECUTABLE_MODE, fields[2]))
  }

  lemma ThreeFields(s: seq<byte>, fields: seq<seq<byte>>)
    requires fields == SplitOn(s, SPACE) && |fields| == 3
    ensures s == fields[0] + [SPACE] + (fields[1] + [SPACE] + fields[2])
  {
    JoinSplit(s, SPACE);
    assert fields[1..][1..] == [fields[2]];
    assert JoinWith(fields[1..], SPACE) == fields[1] + [SPACE] + JoinWith(fields[1..][1..], SPACE);
  }

  lemma ParsedBodyPrints(rules: Rules, raw: seq<byte>)
    requires Sound(rules) && ParseBody(rules, raw).Some?
    ensures var e := ParseBody(rules, raw).value;
            ValidEntry(rules, e) && Body(rules, e) == raw
  {
    hide SplitOn, SafePath, IsHex;
    var i := IndexOf(raw, TAB);
    var fields := SplitOn(raw[..i], SPACE);
    ThreeFields(raw[..i], fields);
    assert raw == raw[..i] + [TAB] + raw[i + 1..];
    assert Header(ParseBody(rules, raw).value) == raw[..i];
  }

  lemma JoinThree(a: seq<byte>, b: seq<byte>, c: seq<byte>, sep: byte)
    ensures JoinWith([a, b, c], sep) == a + [sep] + (b + [sep] + c)
  {
    assert [a, b, c][1..] == [b, c] && [b, c][1..] == [c];
    assert JoinWith([c], sep) == c;
    assert JoinWith([b, c], sep) == b + [sep] + c;
  }

  lemma ModeHasNoSeparator(executable: bool)
    ensures SPACE !in ModeText(executable) && TAB !in ModeText(executable)
  {
  }

  lemma HeaderFields(e: Entry)
    requires IsHex(e.objectId)
    ensures TAB !in Header(e)
    ensures SplitOn(Header(e), SPACE) == [ModeText(e.executable), BLOB, e.objectId]
  {
    hide SplitOn, JoinWith, ModeText;
    var mode := ModeText(e.executable);
    ModeHasNoSeparator(e.executable);
    var parts := [mode, BLOB, e.objectId];
    JoinThree(mode, BLOB, e.objectId, SPACE);
    assert forall p :: p in parts ==> p == mode || p == BLOB || p == e.objectId;
    SplitJoin(parts, SPACE);
  }

  lemma PrintedBodyParses(rules: Rules, e: Entry)
    requires Sound(rules) && ValidEntry(rules, e)
    ensures ParseBody(rules, Body(rules, e)) == Some(e)
  {
    hide SplitOn, SafePath, IsHex;
    var raw := Body(rules, e);
    var path := rules.utf8.encode(e.path);
    HeaderFields(e);
    hide Header;
    IndexOfSplit(Header(e), TAB, path);
    assert raw[..|Header(e)|] == Header(e) && raw[|Header(e)| + 1..] == path;
  }

  /** Parsing one raw entry inverts printing it, in both directions. */
  lemma ParseBodyInverts(rules: Rules, raw: seq<byte>, e: Entry)
    requires Sound(rules)
    ensures ParseBody(rules, raw) == Some(e) <==> ValidEntry(rules, e) && Body(rules, e) == raw
  {
    hide ParseBody, Body, ValidEntry, Lawful;
    if ParseBody(rules, raw) == Some(e) { ParsedBodyPrints(rules, raw); }
    if ValidEntry(rules, e) && Body(rules, e) == raw { PrintedBodyParses(rules, e); }
  }

  // ---------------------------------------------------------------- the listing

  function Print(rules: Rules, entries: seq<Entry>): seq<byte> {
    if entries == [] then [] else Body(rules, entries[0]) + [NUL] + Print(rules, entries[1..])
  }

  function Bodies(rules: Rules, entries: seq<Entry>): seq<seq<byte>> {
    seq(|entries|, i requires 0 <= i < |entries| => Body(rules, entries[i]))
  }

  function Paths(entries: seq<Entry>): seq<string> {
    seq(|entries|, i requires 0 <= i < |entries| => entries[i].path)
  }

  ghost predicate DistinctKeys(t: Tables, entries: seq<Entry>) {
    forall i, j :: 0 <= i < j < |entries| ==> Key(t, entries[i].path) != Key(t, entries[j].path)
  }

  /** What an accepted inventory is: safe entries, strictly sorted by path, no two of them equal
      up to folding. */
  ghost predicate ValidInventory(rules: Rules, entries: seq<Entry>) {
    && 0 < |entries| <= MAX_TRACKED_FILES
    && (forall i :: 0 <= i < |entries| ==> ValidEntry(rules, entries[i]))
    && DistinctKeys(rules.tables, entries)
    && Ascending(Paths(entries))
  }

  predicate HasDoubleNul(s: seq<byte>) {
    exists i :: 0 <= i < |s| - 1 && s[i] == NUL && s[i + 1] == NUL
  }

  lemma {:induction false} PrintIsJoin(rules: Rules, entries: seq<Entry>)
    requires entries != []
    ensures Print(rules, entries) == JoinWith(Bodies(rules, entries), NUL) + [NUL]
    decreases |entries|
  {
    var bodies := Bodies(rules, entries);
    if |entries| > 1 {
      PrintIsJoin(rules, entries[1..]);
      assert Bodies(rules, entries[1..]) == bodies[1..];
      var rest := JoinWith(bodies[1..], NUL);
      assert Body(rules, entries[0]) + [NUL] + (rest + [NUL])
          == Body(rules, entries[0]) + [NUL] + rest + [NUL];
    } else {
      assert Print(rules, entries[1..]) == [];
    }
  }

  lemma BodyHasNoNul(rules: Rules, e: Entry)
    requires Sound(rules) && ValidEntry(rules, e)
    ensures NUL !in Body(rules, e)
  {
    assert '\0' !in e.path;
    assert NUL !in rules.utf8.encode(e.path);
    assert NUL !in Header(e);
  }

  /** A NUL in a printed listing ends an entry, and entries are not empty. */
  lemma {:induction false} PrintNulls(rules: Rules, entries: seq<Entry>)
    requires Sound(rules)
    requires forall i :: 0 <= i < |entries| ==> ValidEntry(rules, entries[i])
    ensures !HasDoubleNul(Print(rules, entries))
    ensures entries != [] ==> Print(rules, entries) != [] && Print(rules, entries)[0] != NUL
    decreases |entries|
  {
    if entries != [] {
      var b := Body(rules, entries[0]);
      var rest := Print(rules, entries[1..]);
      BodyHasNoNul(rules, entries[0]);
      PrintNulls(rules, entries[1..]);
      var s := b + [NUL] + rest;
      assert |b| > 0;
      forall i | 0 <= i < |s| - 1
        ensures s[i] != NUL || s[i + 1] != NUL
      {
        if i < |b| {
          assert s[i] == b[i];
        } else if i == |b| {
          assert s[i + 1] == rest[0];
        } else {
          var k := i - |b| - 1;
          assert s[i] == rest[k] && s[i + 1] == rest[k + 1];
        }
      }
      assert s[0] == b[0];
    }
  }

  /** A printed valid inventory splits into exactly its printed entries. */
  lemma PrintedListing(rules: Rules, entries: seq<Entry>, output: seq<byte>)
    requires Sound(rules) && ValidInventory(rules, entries) && Print(rules, entries) == output
    ensures output != [] && output[|output| - 1] == NUL && !HasDoubleNul(output)
    ensures SplitOn(output[..|output| - 1], NUL) == Bodies(rules, entries)
  {
    PrintIsJoin(rules, entries);
    PrintNulls(rules, entries);
    var bodies := Bodies(rules, entries);
    forall p | p in bodies ensures NUL !in p {
      var i :| 0 <= i < |bodies| && bodies[i] == p;
      BodyHasNoNul(rules, entries[i]);
    }
    SplitJoin(bodies, NUL);
    assert output[..|output| - 1] == JoinWith(bodies, NUL);
  }

  /** Printing is injective on valid inventories. */
  lemma PrintInjective(rules: Rules, a: seq<Entry>, b: seq<Entry>)
    requires Sound(rules) && ValidInventory(rules, a) && ValidInventory(rules, b)
    requires Print(rules, a) == Print(rules, b)
    ensures a == b
  {
    hide ParseBody, Body, Print, ValidEntry, Lawful, SplitOn;
    PrintedListing(rules, a, Print(rules, a));
    PrintedListing(rules, b, Print(rules, a));
    var bodies := Bodies(rules, a);
    assert |a| == |bodies| == |b|;
    forall i | 0 <= i < |a| ensures a[i] == b[i] {
      assert bodies[i] == Body(rules, a[i]) == Body(rules, b[i]);
      ParseBodyInverts(rules, bodies[i], a[i]);
      ParseBodyInverts(rules, bodies[i], b[i]);
    }
  }

  /** The entries a list of raw entries parses to, no two of them with the same key. */
  ghost predicate Parses(rules: Rules, raws: seq<seq<byte>>, entries: seq<Entry>) {
    && |entries| == |raws|
    && (forall j :: 0 <= j < |raws| ==> ParseBody(rules, raws[j]) == Some(entries[j]))
    && DistinctKeys(rules.tables, entries)
  }

  lemma PrefixParses(rules: Rules, raws: seq<seq<byte>>, es: seq<Entry>, i: nat, entries: seq<Entry>)
    requires Parses(rules, raws, es) && i < |raws|
    requires Parses(rules, raws[..i], entries)
    ensures entries == es[..i]
    ensures ParseBody(rules, raws[i]) == Some(es[i])
    ensures forall j :: 0 <= j < i ==> Key(rules.tables, entries[j].path) != Key(rules.tables, es[i].path)
  {
    hide ParseBody, Key;
    assert forall j :: 0 <= j < i ==> raws[..i][j] == raws[j];
    assert forall j :: 0 <= j < i ==> entries[j] == es[j];
  }

  /** The parser's loop over the raw entries and its set of collision keys. */
  method ParseRawEntries(rules: Rules, raws: seq<seq<byte>>) returns (r: Result<seq<Entry>>)
    ensures r.Ok? ==> Parses(rules, raws, r.value)
    ensures r.Err? ==> forall es :: !Parses(rules, raws, es)
  {
    hide ParseBody, Key;
    var entries: seq<Entry> := [];
    var keys: set<string> := {};
    var i := 0;
    while i < |raws|
      invariant i <= |raws|
      invariant Parses(rules, raws[..i], entries)
      invariant keys == set j | 0 <= j < i :: Key(rules.tables, entries[j].path)
    {
      var parsed := ParseBody(rules, raws[i]);
      if parsed.None? || Key(rules.tables, parsed.value.path) in keys {
        forall es ensures !Parses(rules, raws, es) {
          if Parses(rules, raws, es) { PrefixParses(rules, raws, es, i, entries); }
        }
        return Err;
      }
      entries := entries + [parsed.value];
      keys := keys + {Key(rules.tables, parsed.value.path)};
      i := i + 1;
    }
    assert raws[..i] == raws;
    return Ok(entries);
  }

  lemma ListedParses(rules: Rules, output: seq<byte>, raws: seq<seq<byte>>, es: seq<Entry>)
    requires Sound(rules) && output != []
    requires raws == SplitOn(output[..|output| - 1], NUL)
    requires ValidInventory(rules, es) && Print(rules, es) == output
    ensures Parses(rules, raws, es)
  {
    hide ParseBody, Body, Print, ValidEntry, Lawful, SplitOn;
    PrintedListing(rules, es, output);
    forall j | 0 <= j < |raws| ensures ParseBody(rules, raws[j]) == Some(es[j]) {
      assert raws[j] == Bodies(rules, es)[j] == Body(rules, es[j]);
      ParseBodyInverts(rules, raws[j], es[j]);
    }
  }

  lemma ParsesUnique(rules: Rules, raws: seq<seq<byte>>, a: seq<Entry>, b: seq<Entry>)
    requires Parses(rules, raws, a) && Parses(rules, raws, b)
    ensures a == b
  {
    hide ParseBody;
    assert forall j :: 0 <= j < |raws| ==> a[j] == b[j];
  }

  /** `_parse_tracked_entries`: accepts exactly the listings that print a valid inventory, and
      returns that inventory. */
  method ParseTrackedEntries(rules: Rules, output: seq<byte>) returns (r: Result<seq<Entry>>)
    requires Sound(rules)
    ensures r.Ok? ==> ValidInventory(rules, r.value) && Print(rules, r.value) == output
    ensures r.Err? ==> forall es :: !(ValidInventory(rules, es) && Print(rules, es) == output)
  {
    hide ParseBody, Body, Print, ValidEntry, Sound, SplitOn, HasDoubleNul, SortedSet, DistinctKeys;
    if output == [] || output[|output| - 1] != NUL || HasDoubleNul(output) {
      forall es | ValidInventory(rules, es) && Print(rules, es) == output ensures false {
        PrintedListing(rules, es, output);
      }
      return Err;
    }
    var raws := SplitOn(output[..|output| - 1], NUL);
    forall es | ValidInventory(rules, es) && Print(rules, es) == output
      ensures Parses(rules, raws, es)
    {
      ListedParses(rules, output, raws, es);
    }
    if |raws| > MAX_TRACKED_FILES {
      return Err;
    }
    r := ParseRawEntries(rules, raws);
    if r.Err? {
      return;
    }
    var entries := r.value;
    forall es | Parses(rules, raws, es) ensures es == entries {
      ParsesUnique(rules, raws, es, entries);
    }
    var paths := Paths(entries);
    IsSortedSet(paths);
    if paths != SortedSet(paths) {
      return Err;
    }
    AcceptedPrints(rules, output, raws, entries);
  }

  lemma AcceptedPrints(rules: Rules, output: seq<byte>, raws: seq<seq<byte>>, entries: seq<Entry>)
    requires Sound(rules)
    requires output != [] && output[|output| - 1] == NUL
    requires raws == SplitOn(output[..|output| - 1], NUL)
    requires |raws| <= MAX_TRACKED_FILES
    requires Parses(rules, raws, entries) && Ascending(Paths(entries))
    ensures ValidInventory(rules, entries) && Print(rules, entries) == output
  {
    hide Sound, ParseBody, Body, ValidEntry, SplitOn, JoinWith, Print, Ascending, Key;
    forall j | 0 <= j < |raws|
      ensures ValidEntry(rules, entries[j]) && Body(rules, entries[j]) == raws[j]
    {
      ParseBodyInverts(rules, raws[j], entries[j]);
    }
    assert Bodies(rules, entries) == raws;
    JoinSplit(output[..|output| - 1], NUL);
    PrintIsJoin(rules, entries);
    assert output == output[..|output| - 1] + [NUL];
  }

  // ---------------------------------------------------------------- what is accepted, in plain terms

  /** The bytes of a text of plain characters. */
  function Ascii(s: string): seq<byte>
    requires forall c :: c in s ==> c < 128 as char
  {
    seq(|s|, i requires 0 <= i < |s| => assert s[i] in s; s[i] as byte)
  }

  /** A record is a blob with one of the two file modes, its object, a tab, and the path. */
  lemma RecordText(rules: Rules, e: Entry)
    ensures Body(rules, e) == Ascii(if e.executable then "100755 blob " else "100644 blob ") + e.objectId + [9] + rules.utf8.encode(e.path)
  {
    var plain, executable := "100644 blob ", "100755 blob ";
    assert Ascii(plain) == [49, 48, 48, 54, 52, 52, 32, 98, 108, 111, 98, 32];
    assert Ascii(executable) == [49, 48, 48, 55, 53, 53, 32, 98, 108, 111, 98, 32];
    assert PLAIN_MODE + [SPACE] + (BLOB + [SPACE] + e.objectId) == Ascii(plain) + e.objectId;
    assert EXECUTABLE_MODE + [SPACE] + (BLOB + [SPACE] + e.objectId) == Ascii(executable) + e.objectId;
  }

  /** An inventory is valid exactly when it has 1 to 100,000 entries in order of their paths, every object a
      lower-case hexadecimal name of the right length, every path non-empty, without a leading dash, normal and not
      sensitive, and no two paths equal up to folding. */
  lemma InventoryMeans(rules: Rules, entries: seq<Entry>)
    ensures ValidInventory(rules, entries) <==>
              && 1 <= |entries| <= 100_000
              && (forall i, j :: 0 <= i < j < |entries| ==> Less(entries[i].path, entries[j].path))
              && (forall i, j :: 0 <= i < j < |entries| ==>
                    rules.tables.casefold(rules.tables.nfc(entries[i].path)) !=
                    rules.tables.casefold(rules.tables.nfc(entries[j].path)))
              && forall e :: e in entries ==>
                   && |e.objectId| == rules.objectLength
                   && (forall b :: b in e.objectId ==> b in Ascii("0123456789abcdef"))
                   && e.path != "" && e.path[0] != '-'
                   && rules.tables.normalize(e.path) == Some(e.path) && rules.tables.nfc(e.path) == e.path
                   && !rules.tables.sensitive(e.path)
  {
    forall e: Entry ensures IsHex(e.objectId) <==> forall b :: b in e.objectId ==> b in Ascii("0123456789abcdef") {
      HexDigits(e.objectId);
    }
    assert forall i :: 0 <= i < |entries| ==> Paths(entries)[i] == entries[i].path;
    assert forall i :: 0 <= i < |entries| ==> entries[i] in entries;
    hide IsHex, Ascii;
  }

  lemma HexDigits(id: seq<byte>)
    ensures IsHex(id) <==> forall b :: b in id ==> b in Ascii("0123456789abcdef")
  {
    HexBytes();
    assert forall i :: 0 <= i < |id| ==> id[i] in id;
  }

  lemma HexBytes()
    ensures forall b: byte :: b in Ascii("0123456789abcdef") <==> 48 <= b <= 57 || 97 <= b <= 102
  {
    assert Ascii("0123456789abcdef") == [48, 49, 50, 51, 52, 53, 54, 55, 56, 57, 97, 98, 99, 100, 101, 102];
  }
}
