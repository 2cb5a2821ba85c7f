/**
 Parsing one row of `lsblk --pairs`: KEY="value" KEY="value" ...
 */
module LsblkRow {
  import opened Objects

  // ----- Go string functions -----

  // Position of the first occurrence of `sep` in `s`, or |s| when there is none.
  function Find(s: string, sep: string): (i: nat)
    ensures i <= |s|
    ensures i < |s| ==> i + |sep| <= |s| || sep == ""
  {
    if s == "" then 0 else if sep <= s then 0 else 1 + Find(s[1..], sep)
  }

  // strings.Split
  function Split(s: string, sep: string): (parts: seq<string>)
    requires sep != ""
    ensures parts != []
    decreases |s|
  {
    var i := Find(s, sep);
    if i == |s| then [s] else [s[..i]] + Split(s[i + |sep|..], sep)
  }

  function LowerChar(c: char): char {
    if 'A' <= c <= 'Z' then c - 'A' + 'a' else c
  }

  function ToLower(s: string): string {
    if s == "" then "" else [LowerChar(s[0])] + ToLower(s[1..])
  }

  function DropQuotes(s: string): string {
    if s == "" then "" else (if s[0] == '\"' then "" else [s[0]]) + DropQuotes(s[1..])
  }

  predicate IsSpace(c: char) {
    c == ' ' || 9 <= c as int <= 13 || c as int == 0x85 || c as int == 0xA0
  }

  function TrimLeft(s: string): string {
    if s != "" && IsSpace(s[0]) then TrimLeft(s[1..]) else s
  }

  function TrimRight(s: string): string {
    if s != "" && IsSpace(s[|s| - 1]) then TrimRight(s[..|s| - 1]) else s
  }

  function TrimSpace(s: string): string {
    TrimRight(TrimLeft(s))
  }

  // The white space of ASCII and Latin-1, as Go defines it.
  ghost predicate White(c: char) {
    c == ' ' || c == '\t' || c == '\n' || c == '\r' || c as int in {11, 12, 0x85, 0xA0}
  }

  ghost predicate AllSpace(s: string) {
    forall i :: 0 <= i < |s| ==> White(s[i])
  }

  /** Trimming takes off white space at both ends, all of it, and nothing else. */
  lemma TrimSpaceTrims(s: string) returns (before: string, after: string)
    ensures s == before + TrimSpace(s) + after && AllSpace(before) && AllSpace(after)
    ensures var t := TrimSpace(s);
            t != "" ==> !White(t[0]) && !White(t[|t| - 1])
  {
    before := TrimLeftTrims(s);
    after := TrimRightTrims(TrimLeft(s));
    var t, u := TrimSpace(s), TrimLeft(s);
    assert t != "" ==> t[0] == u[0];
  }

  lemma {:induction false} TrimLeftTrims(s: string) returns (before: string)
    ensures s == before + TrimLeft(s) && AllSpace(before)
    ensures TrimLeft(s) != "" ==> !IsSpace(TrimLeft(s)[0])
  {
    before := "";
    if s != "" && IsSpace(s[0]) {
      before := TrimLeftTrims(s[1..]);
      before := [s[0]] + before;
    }
  }

  lemma {:induction false} TrimRightTrims(s: string) returns (after: string)
    ensures s == TrimRight(s) + after && AllSpace(after)
    ensures TrimRight(s) != "" ==> !IsSpace(TrimRight(s)[|TrimRight(s)| - 1])
  {
    after := "";
    if s != "" && IsSpace(s[|s| - 1]) {
      after := TrimRightTrims(s[..|s| - 1]);
      assert s == s[..|s| - 1] + [s[|s| - 1]];
      after := after + [s[|s| - 1]];
    }
  }

  // Capital letters become small, everything else stays.
  lemma {:induction false} LowersLetters(s: string, i: nat)
    requires i < |s|
    ensures |ToLower(s)| == |s|
    ensures ToLower(s)[i] == if 'A' <= s[i] <= 'Z' then s[i] + 32 as char else s[i]
  {
    if |s| > 1 {
      LowersLetters(s[1..], if i > 0 then i - 1 else 0);
    }
  }

  // ----- The parser -----

  const SEPARATOR := "\" "

  function AddPiece(m: map<string, string>, piece: string): map<string, string> {
    var parts := Split(piece, "=");
    if |parts| != 2 then m else m[ToLower(parts[0]) := TrimSpace(DropQuotes(parts[1]))]
  }

  function AddPieces(m: map<string, string>, pieces: seq<string>): map<string, string> {
    if pieces == [] then m else AddPiece(AddPieces(m, pieces[..|pieces| - 1]), pieces[|pieces| - 1])
  }

  // The device is used only if it has a name; its filesystem comes from another table.
  function Finish(m: map<string, string>, fsOf: map<string, string>): Option<map<string, string>> {
    if "name" !in m || m["name"] == "" then None
    else if "/dev/" + m["name"] in fsOf then Some(m["fsType" := fsOf["/dev/" + m["name"]]])
    else Some(m)
  }

  function Parse(row: string, fsOf: map<string, string>): Option<map<string, string>> {
    Finish(AddPieces(map[], Split(row, SEPARATOR)), fsOf)
  }

  method ParseLSBLKRow(row: string, fsOf: map<string, string>) returns (r: Option<map<string, string>>)
    ensures r == Parse(row, fsOf)
  {
    var m: map<string, string> := map[];
    var pieces := Split(row, SEPARATOR);
    for i := 0 to |pieces|
      invariant m == AddPieces(map[], pieces[..i])
    {
      assert pieces[..i + 1][..i] == pieces[..i];
      var parts := Split(pieces[i], "=");
      if |parts| == 2 {
        var key := ToLower(parts[0]);
        var value := DropQuotes(parts[1]);
        m := m[key := TrimSpace(value)];
      }
    }
    assert pieces[..|pieces|] == pieces;
    if "name" !in m || m["name"] == "" {
      return None;
    }
    var dev := "/dev/" + m["name"];
    if dev in fsOf {
      m := m["fsType" := fsOf[dev]];
    }
    return Some(m);
  }

  // ----- The printer -----

  datatype Pair = Pair(key: string, value: string)

  function PrintPair(p: Pair): string {
    p.key + "=\"" + p.value + "\""
  }

  function Print(pairs: seq<Pair>): string {
    if pairs == [] then ""
    else if |pairs| == 1 then PrintPair(pairs[0])
    else PrintPair(pairs[0]) + " " + Print(pairs[1..])
  }

  // What lsblk prints: no quotes or equals signs in keys, no quotes in values, no leading blank.
  predicate Printable(p: Pair) {
    '\"' !in p.key && '=' !in p.key && '\"' !in p.value && (p.value == "" || p.value[0] != ' ')
  }

  // The parser splits at `" `, so a piece has lost the closing quote, except the last one.
  function Piece(p: Pair, last: bool): string {
    p.key + "=\"" + p.value + if last then "\"" else ""
  }

  function Pieces(pairs: seq<Pair>): seq<string> {
    if pairs == [] then [] else [Piece(pairs[0], |pairs| == 1)] + Pieces(pairs[1..])
  }

  // ----- Splitting a printed row -----

  lemma {:induction false} FindSkips(a: string, b: string, sep: string)
    requires sep != "" && forall i :: 0 <= i < |a| ==> !(sep <= (a + b)[i..])
    ensures Find(a + b, sep) == |a| + Find(b, sep)
  {
    if a == "" {
      assert a + b == b;
    } else {
      assert (a + b)[0..] == a + b;
      assert (a + b)[1..] == a[1..] + b;
      forall i | 0 <= i < |a[1..]| ensures !(sep <= (a[1..] + b)[i..]) {
        assert (a[1..] + b)[i..] == (a + b)[i + 1..];
      }
      FindSkips(a[1..], b, sep);
    }
  }

  // Inside a printed pair no quote is followed by a blank.
  lemma NoSeparatorInside(p: Pair, rest: string, i: nat)
    requires Printable(p) && i < |Piece(p, false)|
    ensures !(SEPARATOR <= (Piece(p, false) + "\"" + rest)[i..])
  {
    var s, k := Piece(p, false) + "\"" + rest, |p.key|;
    assert s[i..][0] == s[i];
    if i < k {
      assert s[i] == p.key[i];
    } else if i == k {
      assert s[i] == '=';
    } else if i == k + 1 {
      assert s[i..][1] == s[i + 1] == if p.value == "" then '\"' else p.value[0];
    } else {
      assert s[i] == p.value[i - k - 2];
    }
  }

  // The first separator of a printed row ends the first pair.
  lemma FirstSeparator(p: Pair, tail: string)
    requires Printable(p) && tail != "" && tail[0] == '\"'
    ensures Find(Piece(p, false) + tail, SEPARATOR) == |Piece(p, false)| + Find(tail, SEPARATOR)
  {
    var a := Piece(p, false);
    forall i | 0 <= i < |a| ensures !(SEPARATOR <= (a + tail)[i..]) {
      NoSeparatorInside(p, tail[1..], i);
      assert a + "\"" + tail[1..] == a + tail;
    }
    FindSkips(a, tail, SEPARATOR);
  }

  lemma SplitFirst(a: string, rest: string)
    requires Find(a + (SEPARATOR + rest), SEPARATOR) == |a|
    ensures Split(a + (SEPARATOR + rest), SEPARATOR) == [a] + Split(rest, SEPARATOR)
  {
    var s := a + (SEPARATOR + rest);
    assert s[..|a|] == a && s[|a| + 2..] == rest;
  }

  lemma FindAtStart(rest: string)
    ensures Find(SEPARATOR + rest, SEPARATOR) == 0 && Find("\"", SEPARATOR) == 1
  {
  }

  lemma {:induction false} SplitPrinted(pairs: seq<Pair>)
    requires pairs != [] && forall i :: 0 <= i < |pairs| ==> Printable(pairs[i])
    ensures Split(Print(pairs), SEPARATOR) == Pieces(pairs)
  {
    var a := Piece(pairs[0], false);
    if |pairs| == 1 {
      FindAtStart("");
      FirstSeparator(pairs[0], "\"");
      assert Print(pairs) == a + "\"" && Pieces(pairs) == [a + "\""];
    } else {
      var rest := Print(pairs[1..]);
      FindAtStart(rest);
      FirstSeparator(pairs[0], SEPARATOR + rest);
      assert Print(pairs) == a + (SEPARATOR + rest);
      assert Pieces(pairs) == [a] + Pieces(pairs[1..]);
      SplitPrinted(pairs[1..]);
      hide Find, Split, Print, Piece, Pieces;
      SplitFirst(a, rest);
    }
  }

  // ----- Reading one piece -----

  lemma {:induction false} FindAbsent(s: string, c: char)
    requires c !in s
    ensures Find(s, [c]) == |s|
  {
    if s != "" {
      assert s[0] in s;
      FindAbsent(s[1..], c);
    }
  }

  lemma {:induction false} FindPresent(s: string, c: char)
    requires c in s
    ensures Find(s, [c]) < |s|
  {
    if s[0] != c {
      assert s == [s[0]] + s[1..];
      FindPresent(s[1..], c);
    }
  }

  lemma {:induction false} DropQuotesConcat(a: string, b: string)
    ensures DropQuotes(a + b) == DropQuotes(a) + DropQuotes(b)
  {
    if a == "" {
      assert a + b == b;
    } else {
      assert (a + b)[1..] == a[1..] + b;
      DropQuotesConcat(a[1..], b);
    }
  }

  lemma {:induction false} DropQuotesPlain(s: string)
    requires '\"' !in s
    ensures DropQuotes(s) == s
  {
    if s != "" {
      assert s[0] in s;
      DropQuotesPlain(s[1..]);
    }
  }

  lemma SplitAtEquals(key: string, tail: string)
    requires '=' !in key
    ensures Split(key + "=" + tail, "=") == [key] + Split(tail, "=")
  {
    var s := key + "=" + tail;
    assert s == key + ("=" + tail);
    forall i | 0 <= i < |key| ensures !("=" <= s[i..]) {
      assert s[i..][0] == key[i];
    }
    FindSkips(key, "=" + tail, "=");
    assert Find("=" + tail, "=") == 0;
    assert s[|key| + 1..] == tail && s[..|key|] == key;
  }

  function Quoted(value: string, last: bool): string {
    "\"" + value + if last then "\"" else ""
  }

  lemma SplitQuoted(value: string, last: bool)
    ensures |Split(Quoted(value, last), "=")| == 1 <==> '=' !in value
    ensures '=' !in value ==> Split(Quoted(value, last), "=") == [Quoted(value, last)]
  {
    var q := Quoted(value, last);
    assert '=' in q <==> '=' in value;
    if '=' in value {
      FindPresent(q, '=');
    } else {
      FindAbsent(q, '=');
    }
  }

  lemma DropQuotesQuoted(value: string, last: bool)
    requires '\"' !in value
    ensures DropQuotes(Quoted(value, last)) == value
  {
    DropQuotesConcat("\"" + value, if last then "\"" else "");
    DropQuotesConcat("\"", value);
    DropQuotesPlain(value);
  }

  lemma AddPrintedPiece(m: map<string, string>, p: Pair, last: bool)
    requires Printable(p)
    ensures AddPiece(m, Piece(p, last)) == if '=' in p.value then m else m[ToLower(p.key) := TrimSpace(p.value)]
  {
    assert Piece(p, last) == p.key + "=" + Quoted(p.value, last);
    SplitAtEquals(p.key, Quoted(p.value, last));
    SplitQuoted(p.value, last);
    DropQuotesQuoted(p.value, last);
  }

  // ----- Round trip -----

  // What the row says: later pairs win, and a value with an equals sign is not seen at all.
  function Meaning(pairs: seq<Pair>): map<string, string> {
    if pairs == [] then map[]
    else
      var m, p := Meaning(pairs[..|pairs| - 1]), pairs[|pairs| - 1];
      if '=' in p.value then m else m[ToLower(p.key) := TrimSpace(p.value)]
  }

  // The pieces of a row, whose last pair may be followed by more.
  function PiecesOf(pairs: seq<Pair>, last: bool): seq<string> {
    if pairs == [] then [] else PiecesOf(pairs[..|pairs| - 1], false) + [Piece(pairs[|pairs| - 1], last)]
  }

  lemma {:induction false} PiecesOfCons(p: Pair, pairs: seq<Pair>, last: bool)
    requires pairs != []
    ensures PiecesOf([p] + pairs, last) == [Piece(p, false)] + PiecesOf(pairs, last)
  {
    var n := |pairs| - 1;
    assert ([p] + pairs)[..n + 1] == [p] + pairs[..n];
    if n > 0 {
      PiecesOfCons(p, pairs[..n], false);
    } else {
      assert [p] + pairs[..n] == [p];
      assert PiecesOf([p], false) == [Piece(p, false)];
    }
  }

  lemma {:induction false} SamePieces(pairs: seq<Pair>)
    ensures Pieces(pairs) == PiecesOf(pairs, true)
  {
    if |pairs| > 1 {
      SamePieces(pairs[1..]);
      PiecesOfCons(pairs[0], pairs[1..], true);
      assert pairs == [pairs[0]] + pairs[1..];
    }
  }

  lemma {:induction false} PiecesMeaning(pairs: seq<Pair>, last: bool)
    requires forall i :: 0 <= i < |pairs| ==> Printable(pairs[i])
    ensures AddPieces(map[], PiecesOf(pairs, last)) == Meaning(pairs)
  {
    if pairs != [] {
      var n := |pairs| - 1;
      var front, pieces := PiecesOf(pairs[..n], false), PiecesOf(pairs, last);
      PiecesMeaning(pairs[..n], false);
      assert pieces[..|pieces| - 1] == front && pieces[|pieces| - 1] == Piece(pairs[n], last);
      AddPrintedPiece(AddPieces(map[], front), pairs[n], last);
    }
  }

  /** Parsing a printed row gives back exactly the pairs whose value has no equals sign. */
  lemma ParsePrinted(pairs: seq<Pair>, fsOf: map<string, string>)
    requires pairs != [] && forall i :: 0 <= i < |pairs| ==> Printable(pairs[i])
    ensures Parse(Print(pairs), fsOf) == Finish(Meaning(pairs), fsOf)
  {
    hide AddPieces, Meaning, Pieces, PiecesOf, Split, Print;
    SplitPrinted(pairs);
    SamePieces(pairs);
    PiecesMeaning(pairs, true);
  }

  ghost predicate DistinctKeys(pairs: seq<Pair>) {
    forall i, j :: 0 <= i < j < |pairs| ==> ToLower(pairs[i].key) != ToLower(pairs[j].key)
  }

  lemma {:induction false} MeaningKeys(pairs: seq<Pair>, key: string)
    ensures key in Meaning(pairs) <==>
              exists i :: 0 <= i < |pairs| && ToLower(pairs[i].key) == key && '=' !in pairs[i].value
  {
    if pairs != [] {
      var n := |pairs| - 1;
      MeaningKeys(pairs[..n], key);
      if i :| 0 <= i < |pairs| && ToLower(pairs[i].key) == key && '=' !in pairs[i].value {
        if i < n { assert pairs[..n][i] == pairs[i]; }
      }
      if key in Meaning(pairs[..n]) {
        var i :| 0 <= i < n && ToLower(pairs[..n][i].key) == key && '=' !in pairs[..n][i].value;
        assert pairs[i] == pairs[..n][i];
      }
    }
  }

  lemma {:induction false} MeaningAt(pairs: seq<Pair>, i: nat)
    requires DistinctKeys(pairs) && i < |pairs| && '=' !in pairs[i].value
    ensures ToLower(pairs[i].key) in Meaning(pairs)
    ensures Meaning(pairs)[ToLower(pairs[i].key)] == TrimSpace(pairs[i].value)
  {
    var n := |pairs| - 1;
    if i < n {
      assert forall j :: 0 <= j < n ==> pairs[..n][j] == pairs[j];
      MeaningAt(pairs[..n], i);
    }
  }

  lemma MeaningColumn(pairs: seq<Pair>, i: nat)
    requires DistinctKeys(pairs) && i < |pairs|
    ensures ToLower(pairs[i].key) in Meaning(pairs) <==> '=' !in pairs[i].value
    ensures '=' !in pairs[i].value ==> Meaning(pairs)[ToLower(pairs[i].key)] == TrimSpace(pairs[i].value)
  {
    MeaningKeys(pairs, ToLower(pairs[i].key));
    if '=' !in pairs[i].value {
      MeaningAt(pairs, i);
    }
  }

  lemma {:induction false} LowerHasNoUpper(s: string, c: char)
    requires 'A' <= c <= 'Z'
    ensures c !in ToLower(s)
  {
    if s != "" {
      LowerHasNoUpper(s[1..], c);
    }
  }

  // The key the parser adds itself is no column of a row.
  lemma NoColumnIsFsType(key: string)
    ensures ToLower(key) != "fsType"
  {
    LowerHasNoUpper(key, 'T');
    assert "fsType"[2] == 'T';
  }

  ghost predicate NameSeen(pairs: seq<Pair>, i: nat)
    requires i < |pairs|
  {
    ToLower(pairs[i].key) == "name" && '=' !in pairs[i].value && TrimSpace(pairs[i].value) != ""
  }

  // Column `i` of the row is in `m`, with lower-cased key and trimmed value, iff its value has no equals sign.
  ghost predicate HoldsColumn(m: map<string, string>, pairs: seq<Pair>, i: nat)
    requires i < |pairs|
  {
    var key, value := ToLower(pairs[i].key), pairs[i].value;
    (key in m <==> '=' !in value) && ('=' !in value ==> m[key] == TrimSpace(value))
  }

  ghost predicate HoldsColumns(m: map<string, string>, pairs: seq<Pair>) {
    forall i :: 0 <= i < |pairs| ==> HoldsColumn(m, pairs, i)
  }

  ghost predicate IsColumn(pairs: seq<Pair>, k: string) {
    exists i :: 0 <= i < |pairs| && ToLower(pairs[i].key) == k
  }

  ghost predicate HoldsOnlyColumns(m: map<string, string>, pairs: seq<Pair>) {
    forall k :: k in m && k != "fsType" ==> IsColumn(pairs, k)
  }

  // The result for a row: used iff it names its device; then its columns, and nothing else but the
  // filesystem known for the device.
  ghost predicate RowComesBack(pairs: seq<Pair>, fsOf: map<string, string>, r: Option<map<string, string>>) {
    && (r.Some? <==> exists i :: 0 <= i < |pairs| && NameSeen(pairs, i))
    && (r.Some? ==>
          && HoldsColumns(r.value, pairs) && HoldsOnlyColumns(r.value, pairs) && "name" in r.value
          && ("fsType" in r.value <==> "/dev/" + r.value["name"] in fsOf)
          && ("fsType" in r.value ==> r.value["fsType"] == fsOf["/dev/" + r.value["name"]]))
  }

  lemma MeaningHolds(pairs: seq<Pair>)
    requires DistinctKeys(pairs)
    ensures HoldsColumns(Meaning(pairs), pairs)
    ensures HoldsOnlyColumns(Meaning(pairs), pairs)
    ensures "fsType" !in Meaning(pairs)
  {
    hide Meaning, ToLower, TrimSpace, DistinctKeys;
    forall i | 0 <= i < |pairs| ensures HoldsColumn(Meaning(pairs), pairs, i) {
      MeaningColumn(pairs, i);
    }
    forall k ensures k in Meaning(pairs) ==> IsColumn(pairs, k) && k != "fsType" {
      MeaningKeys(pairs, k);
      if i :| 0 <= i < |pairs| && ToLower(pairs[i].key) == k {
        NoColumnIsFsType(pairs[i].key);
      }
    }
  }

  lemma NamedIff(m: map<string, string>, pairs: seq<Pair>)
    requires HoldsColumns(m, pairs) && HoldsOnlyColumns(m, pairs)
    ensures "name" in m && m["name"] != "" <==> exists i :: 0 <= i < |pairs| && NameSeen(pairs, i)
  {
    hide ToLower, TrimSpace;
    if "name" in m && m["name"] != "" {
      var i :| 0 <= i < |pairs| && ToLower(pairs[i].key) == "name";
      assert HoldsColumn(m, pairs, i);
      assert NameSeen(pairs, i);
    }
    if i :| 0 <= i < |pairs| && NameSeen(pairs, i) {
      assert HoldsColumn(m, pairs, i);
    }
  }

  lemma FinishComesBack(m: map<string, string>, pairs: seq<Pair>, fsOf: map<string, string>)
    requires HoldsColumns(m, pairs) && HoldsOnlyColumns(m, pairs) && "fsType" !in m
    ensures RowComesBack(pairs, fsOf, Finish(m, fsOf))
  {
    hide ToLower, TrimSpace, NameSeen;
    NamedIff(m, pairs);
    var r := Finish(m, fsOf);
    if r.Some? {
      forall i | 0 <= i < |pairs| ensures HoldsColumn(r.value, pairs, i) {
        assert HoldsColumn(m, pairs, i);
        NoColumnIsFsType(pairs[i].key);
      }
    }
  }

  /**
   Round trip through the parser, for printed rows with distinct keys.  A row is used iff it names its
   device; then a column comes back, with lower-cased key and trimmed value, iff its value has no
   equals sign, and nothing is added but the filesystem known for the device.
   */
  lemma ColumnsComeBack(pairs: seq<Pair>, fsOf: map<string, string>)
    requires pairs != [] && DistinctKeys(pairs) && forall i :: 0 <= i < |pairs| ==> Printable(pairs[i])
    ensures RowComesBack(pairs, fsOf, Parse(Print(pairs), fsOf))
  {
    hide *;
    ParsePrinted(pairs, fsOf);
    MeaningHolds(pairs);
    FinishComesBack(Meaning(pairs), pairs, fsOf);
  }

  /** A row without pairs is not used. */
  lemma EmptyRow(fsOf: map<string, string>)
    ensures Parse(Print([]), fsOf) == None
  {
    assert Split("", SEPARATOR) == [""] && Split("", "=") == [""];
    assert [""][..0] == [];
  }

  lemma LowerName()
    ensures ToLower("NAME") == "name" && |ToLower("PARTLABEL")| == 9 && TrimSpace("sda") == "sda"
  {
    assert "NAME"[1..] == "AME" && "AME"[1..] == "ME" && "ME"[1..] == "E" && "E"[1..] == "";
    LowerLength("PARTLABEL");
  }

  lemma {:induction false} LowerLength(s: string)
    ensures |ToLower(s)| == |s|
  {
    if s != "" {
      LowerLength(s[1..]);
    }
  }

  const LABELLED := [Pair("NAME", "sda"), Pair("PARTLABEL", "a=b")]

  lemma LabelledRow()
    ensures DistinctKeys(LABELLED) && (forall i :: 0 <= i < |LABELLED| ==> Printable(LABELLED[i]))
    ensures NameSeen(LABELLED, 0)
  {
    LowerName();
    hide ToLower, TrimSpace;
    assert Printable(Pair("NAME", "sda"));
    assert Printable(Pair("PARTLABEL", "a=b"));
  }

  // A label such as "a=b" is lost, with its column.
  lemma LabelIsLost(fsOf: map<string, string>)
    ensures Parse(Print(LABELLED), fsOf).Some? && ToLower("PARTLABEL") !in Parse(Print(LABELLED), fsOf).value
  {
    LabelledRow();
    hide ToLower, TrimSpace, Parse, Print, NameSeen;
    ColumnsComeBack(LABELLED, fsOf);
    assert "a=b"[1] == '=';
    assert HoldsColumn(Parse(Print(LABELLED), fsOf).value, LABELLED, 1);
  }
}
