/** MAC address spellings: what the validator accepts, and the normal form the database looks up. */
module MacAddresses {
  import opened Wrappers
  import opened JsonObjects

  predicate IsHex(c: char) {
    '0' <= c <= '9' || 'a' <= c <= 'f' || 'A' <= c <= 'F'
  }

  function ToUpper(c: char): char {
    if 'a' <= c <= 'z' then c - 'a' + 'A' else c
  }

  predicate IsUpperHex(c: char) {
    IsHex(c) && ToUpper(c) == c
  }

  predicate IsSeparator(c: char) {
    c == ':' || c == '-'
  }

  // ---------- validation ----------

  /** Six pairs of hex digits, either joined by five separators or written together. */
  ghost predicate IsMacSpelling(mac: string) {
    || (|mac| == 17 && forall i :: 0 <= i < 17 ==> if i % 3 == 2 then IsSeparator(mac[i]) else IsHex(mac[i]))
    || (|mac| == 12 && forall i :: 0 <= i < 12 ==> IsHex(mac[i]))
  }

  lemma HexDigits(c: char)
    ensures IsHex(c) <==> c in "0123456789abcdefABCDEF"
  {
    if IsHex(c) {
      HexDigitAt(c);
    }
  }

  lemma HexDigitAt(c: char)
    requires IsHex(c)
    ensures c in "0123456789abcdefABCDEF"
  {
    var i :=
      if '0' <= c <= '9' then c as int - '0' as int
      else if 'a' <= c <= 'f' then c as int - 'a' as int + 10
      else c as int - 'A' as int + 16;
    assert "0123456789abcdefABCDEF"[i] == c;
  }

  /** The accepted spellings, character by character. */
  lemma AcceptedSpellings(mac: string)
    ensures IsMacSpelling(mac) <==>
      || (|mac| == 12 && forall i :: 0 <= i < 12 ==> mac[i] in "0123456789abcdefABCDEF")
      || (|mac| == 17 && forall i :: 0 <= i < 17 ==>
            mac[i] in if i % 3 == 2 then ":-" else "0123456789abcdefABCDEF")
  {
    hide IsHex;
    forall i | 0 <= i < |mac|
      ensures IsHex(mac[i]) <==> mac[i] in "0123456789abcdefABCDEF"
      ensures IsSeparator(mac[i]) <==> mac[i] in ":-"
    {
      HexDigits(mac[i]);
    }
  }

  method IsValidMacFormat(mac: string) returns (valid: bool)
    ensures valid <==> IsMacSpelling(mac)
  {
    if |mac| == 17 {
      for i := 0 to 17
        invariant forall j :: 0 <= j < i ==> if j % 3 == 2 then IsSeparator(mac[j]) else IsHex(mac[j])
      {
        if i % 3 == 2 {
          if mac[i] != ':' && mac[i] != '-' {
            return false;
          }
        } else if !IsHex(mac[i]) {
          return false;
        }
      }
      return true;
    }
    if |mac| == 12 {
      return forall i :: 0 <= i < 12 ==> IsHex(mac[i]);
    }
    return false;
  }

  // ---------- the normal form ----------

  /** The hex digits of the spelling, in order and in upper case. */
  function Normalize(mac: string): string {
    if mac == [] then []
    else
      var c := mac[|mac| - 1];
      Normalize(mac[..|mac| - 1]) + if IsHex(c) then [ToUpper(c)] else []
  }

  method NormalizeMacAddress(mac: string) returns (normalized: string)
    ensures normalized == Normalize(mac)
  {
    normalized := "";
    for i := 0 to |mac|
      invariant normalized == Normalize(mac[..i])
    {
      assert mac[..i + 1][..i] == mac[..i];
      if IsHex(mac[i]) {
        normalized := normalized + [ToUpper(mac[i])];
      }
    }
    assert mac[..|mac|] == mac;
  }

  lemma {:induction false} NormalizeIsUpperHex(mac: string)
    ensures forall i :: 0 <= i < |Normalize(mac)| ==> IsUpperHex(Normalize(mac)[i])
  {
    if mac != [] {
      NormalizeIsUpperHex(mac[..|mac| - 1]);
    }
  }

  lemma {:induction false} NormalizeConcat(a: string, b: string)
    ensures Normalize(a + b) == Normalize(a) + Normalize(b)
  {
    if b == [] {
      assert a + b == a;
    } else {
      NormalizeConcat(a, b[..|b| - 1]);
      assert (a + b)[..|a + b| - 1] == a + b[..|b| - 1];
    }
  }

  /** With NormalizeConcat, the normal form of every string: it drops all but hex digits, in upper case. */
  lemma NormalizeOne(c: char)
    ensures Normalize([c]) ==
      if c in "0123456789ABCDEF" then [c]
      else match c
        case 'a' => "A" case 'b' => "B" case 'c' => "C" case 'd' => "D" case 'e' => "E" case 'f' => "F"
        case _ => ""
  {
    HexDigits(c);
    assert Normalize([c]) == Normalize([]) + (if IsHex(c) then [ToUpper(c)] else []);
  }

  lemma {:induction false} NormalizeFixesUpperHex(s: string)
    requires forall i :: 0 <= i < |s| ==> IsUpperHex(s[i])
    ensures Normalize(s) == s
  {
    if s != [] {
      NormalizeFixesUpperHex(s[..|s| - 1]);
      assert s == s[..|s| - 1] + [s[|s| - 1]];
    }
  }

  lemma NormalizeIsIdempotent(mac: string)
    ensures Normalize(Normalize(mac)) == Normalize(mac)
  {
    NormalizeIsUpperHex(mac);
    NormalizeFixesUpperHex(Normalize(mac));
  }

  /** The first `pairs` groups of a separated spelling give two digits each. */
  lemma {:induction false} SeparatedPrefix(mac: string, pairs: nat)
    requires |mac| == 17 && IsMacSpelling(mac) && pairs <= 5
    ensures |Normalize(mac[..3 * pairs])| == 2 * pairs
  {
    if pairs > 0 {
      var k := 3 * (pairs - 1);
      SeparatedPrefix(mac, pairs - 1);
      NormalizeGroup(mac[k], mac[k + 1], mac[k + 2]);
      NormalizeConcat(mac[..k], [mac[k], mac[k + 1], mac[k + 2]]);
      assert mac[..3 * pairs] == mac[..k] + [mac[k], mac[k + 1], mac[k + 2]];
    }
  }

  lemma NormalizeGroup(a: char, b: char, separator: char)
    requires IsHex(a) && IsHex(b) && IsSeparator(separator)
    ensures Normalize([a, b, separator]) == [ToUpper(a), ToUpper(b)]
  {
    NormalizePair(a, b);
    assert [a, b, separator][..2] == [a, b];
  }

  lemma NormalizePair(a: char, b: char)
    requires IsHex(a) && IsHex(b)
    ensures Normalize([a, b]) == [ToUpper(a), ToUpper(b)]
  {
    assert [a, b][..1] == [a] && [a][..0] == [];
    assert Normalize([a]) == Normalize([]) + [ToUpper(a)] == [ToUpper(a)];
  }

  lemma {:induction false} AllHexKeepsLength(s: string)
    requires forall i :: 0 <= i < |s| ==> IsHex(s[i])
    ensures |Normalize(s)| == |s|
  {
    if s != [] {
      AllHexKeepsLength(s[..|s| - 1]);
    }
  }

  /** Whatever the validator accepts has a normal form of exactly twelve upper-case hex digits. */
  lemma AcceptedSpellingHasTwelveDigits(mac: string)
    requires IsMacSpelling(mac)
    ensures |Normalize(mac)| == 12
    ensures forall i :: 0 <= i < 12 ==> IsUpperHex(Normalize(mac)[i])
  {
    NormalizeIsUpperHex(mac);
    if |mac| == 17 {
      SeparatedPrefix(mac, 5);
      NormalizeConcat(mac[..15], [mac[15], mac[16]]);
      assert mac == mac[..15] + [mac[15], mac[16]];
      NormalizePair(mac[15], mac[16]);
    } else {
      AllHexKeepsLength(mac);
    }
  }

  // ---------- the OUI and the database ----------

  function ExtractOui(normalized: string): string {
    if |normalized| >= 6 then
      normalized[..2] + ":" + normalized[2..4] + ":" + normalized[4..6]
    else ""
  }

  /** Normalising an OUI gives back the digits it was cut from. */
  lemma NormalizeUndoesExtractOui(mac: string)
    requires |Normalize(mac)| >= 6
    ensures Normalize(ExtractOui(Normalize(mac))) == Normalize(mac)[..6]
  {
    hide Normalize, IsUpperHex;
    var n := Normalize(mac);
    NormalizeFixesSlice(mac, 0, 2);
    NormalizeFixesSlice(mac, 2, 4);
    NormalizeFixesSlice(mac, 4, 6);
    NormalizeJoined(n[..2], n[2..4], n[4..6]);
    assert n[..2] + n[2..4] + n[4..6] == n[..6];
  }

  lemma NormalizeFixesSlice(mac: string, i: nat, j: nat)
    requires i <= j <= |Normalize(mac)|
    ensures Normalize(Normalize(mac)[i..j]) == Normalize(mac)[i..j]
  {
    hide Normalize;
    NormalizeIsUpperHex(mac);
    NormalizeFixesUpperHex(Normalize(mac)[i..j]);
  }

  lemma NormalizeJoined(a: string, b: string, c: string)
    ensures Normalize(a + ":" + b + ":" + c) == Normalize(a) + Normalize(b) + Normalize(c)
  {
    hide Normalize;
    NormalizeConcat(a, ":");
    NormalizeConcat(a + ":", b);
    NormalizeConcat(a + ":" + b, ":");
    NormalizeConcat(a + ":" + b + ":", c);
    NormalizeDropsColon();
  }

  lemma NormalizeDropsColon()
    ensures Normalize(":") == []
  {}

  /** How the prepared statement ends for an OUI; columns that are NULL are absent from `columns`. */
  datatype OuiOutcome =
    | BindFailed(message: string)
    | Row(columns: map<string, string>)
    | NoRow
    | StepFailed(message: string)
    | Raised(what: string)

  const OUI_COLUMNS: set<string> :=
    {"manufacturer", "registry", "short_name", "device_type", "registered_date", "address", "sources"}

  datatype OuiDatabase = OuiDatabase(isOpen: bool, rows: string -> OuiOutcome)

  function ColumnFields(columns: map<string, string>): Json {
    map k | k in columns && k in OUI_COLUMNS :: Text(columns[k])
  }

  /** No column is called like one of the three fields that every result has. */
  lemma ColumnsAreNotMeta(columns: map<string, string>)
    ensures "mac" !in ColumnFields(columns) && "oui" !in ColumnFields(columns)
    ensures "found" !in ColumnFields(columns) && "error" !in ColumnFields(columns)
  {}

  lemma UpdateIsForgotten(o: Json, k: string, v: JsonValue)
    ensures o[k := v] - {k} == o - {k}
  {}

  /**
   * What a result of `OUIDatabase::lookup` holds, key by key: an error alone, or the spelling, the
   * first six digits in three pairs, whether the database has a row for them, and its columns.
   */
  ghost predicate OuiContents(db: OuiDatabase, mac: string, r: Result<Json, string>) {
    var n := Normalize(mac);
    if !db.isOpen then r == Ok(map["error" := Text("Database not open")])
    else if |n| != 12 then r == Ok(map["error" := Text("Invalid MAC address format")])
    else
      var oui := [n[0], n[1], ':', n[2], n[3], ':', n[4], n[5]];
      match db.rows(oui)
      case BindFailed(message) => r == Ok(map["error" := Text("Failed to bind parameter: " + message)])
      case StepFailed(message) => r == Ok(map["error" := Text("Query failed: " + message)])
      case Raised(what) => r == Err(what)
      case NoRow => r == Ok(map["mac" := Text(mac), "oui" := Text(oui), "found" := Flag(false)])
      case Row(columns) =>
        && r.Ok?
        && {"mac", "oui", "found"} <= r.value.Keys
        && r.value["mac"] == Text(mac) && r.value["oui"] == Text(oui) && r.value["found"] == Flag(true)
        && (forall k :: k in r.value && k !in {"mac", "oui", "found"} ==>
              && k in {"manufacturer", "registry", "short_name", "device_type", "registered_date", "address", "sources"}
              && k in columns)
        && forall k | k in columns
              && k in {"manufacturer", "registry", "short_name", "device_type", "registered_date", "address", "sources"}
            :: k in r.value && r.value[k] == Text(columns[k])
  }

  lemma ExtractOuiAt(n: string)
    requires |n| >= 6
    ensures ExtractOui(n) == [n[0], n[1], ':', n[2], n[3], ':', n[4], n[5]]
  {}

  lemma ColumnFieldsAt(columns: map<string, string>, k: string)
    ensures k in ColumnFields(columns) <==>
      k in columns
      && k in {"manufacturer", "registry", "short_name", "device_type", "registered_date", "address", "sources"}
    ensures k in ColumnFields(columns) ==> ColumnFields(columns)[k] == Text(columns[k])
  {}

  /** That leaves nothing open: exactly one result holds these things. */
  lemma OuiContentsDecide(db: OuiDatabase, mac: string, r: Result<Json, string>)
    ensures OuiContents(db, mac, r) <==> r == OuiResult(db, mac)
  {
    hide Normalize, ExtractOui, ColumnFields;
    if db.isOpen && |Normalize(mac)| == 12 {
      ExtractOuiAt(Normalize(mac));
      var oui := ExtractOui(Normalize(mac));
      match db.rows(oui) {
        case Row(columns) =>
          RowContents(db, mac, oui, columns, r);
        case NoRow =>
          assert map["oui" := Text(oui), "found" := Flag(false)]["mac" := Text(mac)]
            == map["mac" := Text(mac), "oui" := Text(oui), "found" := Flag(false)];
        case _ =>
      }
    }
  }

  lemma RowContents(db: OuiDatabase, mac: string, oui: string, columns: map<string, string>, r: Result<Json, string>)
    requires db.isOpen && |Normalize(mac)| == 12 && oui == ExtractOui(Normalize(mac)) && db.rows(oui) == Row(columns)
    ensures OuiContents(db, mac, r) <==> r == OuiResult(db, mac)
  {
    hide Normalize, ExtractOui, ColumnFields;
    ExtractOuiAt(Normalize(mac));
    ColumnsAreNotMeta(columns);
    forall k: string
      ensures k in ColumnFields(columns) <==>
        k in columns
        && k in {"manufacturer", "registry", "short_name", "device_type", "registered_date", "address", "sources"}
      ensures k in ColumnFields(columns) ==> ColumnFields(columns)[k] == Text(columns[k])
    {
      ColumnFieldsAt(columns, k);
    }
    var expected := (ColumnFields(columns) + map["oui" := Text(oui), "found" := Flag(true)])["mac" := Text(mac)];
    if OuiContents(db, mac, r) {
      assert r.value == expected;
    }
  }

  /** `OUIDatabase::lookup`: the result object, or the text of an exception. */
  method OuiLookup(db: OuiDatabase, mac: string) returns (r: Result<Json, string>)
    ensures r == OuiResult(db, mac)
    ensures OuiContents(db, mac, r)
  {
    hide OuiContents;
    OuiContentsDecide(db, mac, OuiResult(db, mac));
    var result: Json := map[];
    if !db.isOpen {
      result := result["error" := Text("Database not open")];
      return Ok(result);
    }
    var normalized := NormalizeMacAddress(mac);
    if |normalized| != 12 {
      result := result["error" := Text("Invalid MAC address format")];
      return Ok(result);
    }
    var oui := ExtractOui(normalized);
    match db.rows(oui) {
      case BindFailed(message) =>
        result := result["error" := Text("Failed to bind parameter: " + message)];
      case Row(columns) =>
        result := result["mac" := Text(mac)];
        result := result["oui" := Text(oui)];
        result := result["found" := Flag(true)];
        result := result + ColumnFields(columns);
        ColumnsAreNotMeta(columns);
        assert result == (ColumnFields(columns) + map["oui" := Text(oui), "found" := Flag(true)])["mac" := Text(mac)];
      case NoRow =>
        result := result["mac" := Text(mac)];
        result := result["oui" := Text(oui)];
        result := result["found" := Flag(false)];
        assert result == map["oui" := Text(oui), "found" := Flag(false)]["mac" := Text(mac)];
      case StepFailed(message) =>
        result := result["error" := Text("Query failed: " + message)];
      case Raised(what) =>
        return Err(what);
    }
    return Ok(result);
  }

  function OuiError(message: string): Result<Json, string> {
    Ok(map["error" := Text(message)])
  }

  /** The result as a value: an error alone, or the address, its OUI, whether it was found, and its columns. */
  function OuiResult(db: OuiDatabase, mac: string): Result<Json, string> {
    if !db.isOpen then OuiError("Database not open")
    else if |Normalize(mac)| != 12 then OuiError("Invalid MAC address format")
    else
      var oui := ExtractOui(Normalize(mac));
      match db.rows(oui)
      case BindFailed(message) => OuiError("Failed to bind parameter: " + message)
      case StepFailed(message) => OuiError("Query failed: " + message)
      case Raised(what) => Err(what)
      case NoRow => Ok(map["oui" := Text(oui), "found" := Flag(false)]["mac" := Text(mac)])
      case Row(columns) =>
        Ok((ColumnFields(columns) + map["oui" := Text(oui), "found" := Flag(true)])["mac" := Text(mac)])
  }

  /** An accepted spelling never meets the format error of an open database. */
  lemma AcceptedSpellingIsLookedUp(db: OuiDatabase, mac: string)
    requires db.isOpen && IsMacSpelling(mac)
    ensures
      match db.rows(ExtractOui(Normalize(mac)))
      case Row(columns) => OuiResult(db, mac).Ok? && Found(OuiResult(db, mac).value) && !HasError(OuiResult(db, mac).value)
      case NoRow => OuiResult(db, mac).Ok? && !Found(OuiResult(db, mac).value) && !HasError(OuiResult(db, mac).value)
      case Raised(what) => OuiResult(db, mac) == Err(what)
      case BindFailed(message) => OuiResult(db, mac) == OuiError("Failed to bind parameter: " + message)
      case StepFailed(message) => OuiResult(db, mac) == OuiError("Query failed: " + message)
  {
    AcceptedSpellingHasTwelveDigits(mac);
  }

  /** Spellings of one address get the same answer, up to the "mac" field that echoes the spelling. */
  lemma SpellingDoesNotMatter(db: OuiDatabase, a: string, b: string)
    requires Normalize(a) == Normalize(b)
    ensures
      match (OuiResult(db, a), OuiResult(db, b))
      case (Ok(x), Ok(y)) =>
        && x - {"mac"} == y - {"mac"}
        && ("mac" in x <==> "mac" in y)
        && ("mac" in x ==> x["mac"] == Text(a) && y["mac"] == Text(b))
      case (Err(x), Err(y)) => x == y
      case _ => false
  {
    if db.isOpen && |Normalize(a)| == 12 {
      var oui := ExtractOui(Normalize(a));
      match db.rows(oui) {
        case Row(columns) =>
          var o := ColumnFields(columns) + map["oui" := Text(oui), "found" := Flag(true)];
          UpdateIsForgotten(o, "mac", Text(a));
          UpdateIsForgotten(o, "mac", Text(b));
        case NoRow =>
          var o := map["oui" := Text(oui), "found" := Flag(false)];
          UpdateIsForgotten(o, "mac", Text(a));
          UpdateIsForgotten(o, "mac", Text(b));
        case _ =>
      }
    }
  }
}
