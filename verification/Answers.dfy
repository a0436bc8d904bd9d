/**
 * What a lookup answers when no cache is in the way, as a function of what the databases hold,
 * and whether and how that answer may be cached.
 */
module Answers {
  import opened Wrappers
  import opened JsonObjects
  import opened CacheModel
  import opened MacAddresses

  /** The data of an uncached lookup; `cacheAs` is None when the answer is never cached. */
  datatype Answer = Answer(data: Json, cacheAs: Option<CacheDataType>)

  // ---------- the MaxMind databases ----------

  /** How a MaxMind query ends for an address; `values` are the entry's values by result field. */
  datatype MmdbOutcome =
    | NotOpen
    | BadAddress
    | QueryError(message: string)
    | NoEntry
    | Entry(values: map<string, JsonValue>)
    | Raised(what: string)
  {
    function ErrorText(): Option<string> {
      match this
      case NotOpen => Some("Database not open")
      case BadAddress => Some("Invalid IP address")
      case QueryError(message) => Some("MaxMind DB lookup error: " + message)
      case _ => None
    }
  }

  const CITY_FIELDS: set<string> :=
    {"country", "country_code", "city", "continent", "latitude", "longitude", "timezone"}

  const ASN_FIELDS: set<string> := {"as_organization", "as_number"}

  function EntryFields(o: MmdbOutcome, names: set<string>): Json {
    if o.Entry? then map k | k in o.values && k in names :: o.values[k] else map[]
  }

  lemma FieldsAreNotMeta(o: MmdbOutcome)
    ensures forall k :: k in {"ip", "found", "error"} ==>
      k !in EntryFields(o, CITY_FIELDS) && k !in EntryFields(o, ASN_FIELDS)
  {
    assert "ip" !in CITY_FIELDS && "found" !in CITY_FIELDS && "error" !in CITY_FIELDS;
    assert "ip" !in ASN_FIELDS && "found" !in ASN_FIELDS && "error" !in ASN_FIELDS;
  }

  /** The object that every answer about an address starts from. */
  function Base(ip: string, found: bool): Json {
    map["ip" := Text(ip), "found" := Flag(found)]
  }

  /**
   * `perform_lookup`, then the fields of the entry. The result is an error, with its text and no
   * "found", or says whether an entry was found, and then has the entry's fields and no "error".
   */
  method MmdbLookup(o: MmdbOutcome, ip: string, names: set<string>) returns (r: Result<Json, string>)
    requires names == CITY_FIELDS || names == ASN_FIELDS
    ensures r.Err? <==> o.Raised?
    ensures r.Err? ==> r.error == o.what
    ensures r.Ok? ==>
      && (HasError(r.value) <==> o.ErrorText().Some?)
      && (HasError(r.value) <==> "found" !in r.value)
      && (HasError(r.value) ==> r.value == map["error" := Text(o.ErrorText().value), "ip" := Text(ip)])
      && (Found(r.value) <==> o.Entry?)
      && (o.NoEntry? ==> r.value == Base(ip, false))
      && (Found(r.value) ==> r.value == Base(ip, true) + EntryFields(o, names))
  {
    FieldsAreNotMeta(o);
    if o.Raised? {
      return Err(o.what);
    }
    var result: Json := map[];
    if o.ErrorText().Some? {
      result := result["error" := Text(o.ErrorText().value)];
      result := result["ip" := Text(ip)];
      return Ok(result);
    }
    if o.NoEntry? {
      result := result["ip" := Text(ip)];
      result := result["found" := Flag(false)];
      assert result == Base(ip, false);
      return Ok(result);
    }
    result := result["ip" := Text(ip)];
    result := result["found" := Flag(true)];
    assert result == Base(ip, true);
    return Ok(result + EntryFields(o, names));
  }

  // ---------- address lookups ----------

  datatype GeoDatabases = GeoDatabases(city: string -> MmdbOutcome, asn: string -> MmdbOutcome)

  /**
   * An exception from either database, and an error of the city database, are reported and not
   * cached. An error of the ASN database counts as "no entry". Otherwise the answer has the
   * fields of both entries, or is a cacheable negative if there is neither.
   */
  function GeoAnswer(db: GeoDatabases, ip: string): Answer {
    var city, asn := db.city(ip), db.asn(ip);
    if city.Raised? then Answer(Base(ip, false)["error" := Text(city.what)], None)
    else if asn.Raised? then Answer(Base(ip, false)["error" := Text(asn.what)], None)
    else if city.ErrorText().Some? then Answer(Base(ip, false)["error" := Text(city.ErrorText().value)], None)
    else if city.Entry? || asn.Entry? then
      Answer(Base(ip, true) + EntryFields(city, CITY_FIELDS) + EntryFields(asn, ASN_FIELDS), Some(IpGeolocation))
    else Answer(Base(ip, false), Some(Negative))
  }

  /**
   * What the answer about an address holds, key by key. Without an error it has the address,
   * whether either database has an entry, and of the nine fields exactly those that the entries
   * have; with one, the text of the first failure.
   */
  ghost predicate GeoContents(city: MmdbOutcome, asn: MmdbOutcome, ip: string, a: Answer) {
    if city.Raised? || asn.Raised? || city.NotOpen? || city.BadAddress? || city.QueryError? then
      var text :=
        if city.Raised? then city.what
        else if asn.Raised? then asn.what
        else if city.NotOpen? then "Database not open"
        else if city.BadAddress? then "Invalid IP address"
        else "MaxMind DB lookup error: " + city.message;
      a == Answer(map["ip" := Text(ip), "found" := Flag(false), "error" := Text(text)], None)
    else
      && a.cacheAs == Some(if city.Entry? || asn.Entry? then IpGeolocation else Negative)
      && {"ip", "found"} <= a.data.Keys
      && a.data["ip"] == Text(ip) && a.data["found"] == Flag(city.Entry? || asn.Entry?)
      && (forall k :: k in a.data && k !in {"ip", "found"} ==>
            || (k in {"country", "country_code", "city", "continent", "latitude", "longitude", "timezone"} &&
                city.Entry? && k in city.values)
            || (k in {"as_organization", "as_number"} && asn.Entry? && k in asn.values))
      && (city.Entry? ==> forall k | k in city.values
              && k in {"country", "country_code", "city", "continent", "latitude", "longitude", "timezone"}
            :: k in a.data && a.data[k] == city.values[k])
      && (asn.Entry? ==> forall k | k in asn.values && k in {"as_organization", "as_number"}
            :: k in a.data && a.data[k] == asn.values[k])
  }

  lemma FieldsAt(o: MmdbOutcome)
    ensures forall k :: k in EntryFields(o, CITY_FIELDS) <==>
      o.Entry? && k in o.values
      && k in {"country", "country_code", "city", "continent", "latitude", "longitude", "timezone"}
    ensures forall k :: k in EntryFields(o, CITY_FIELDS) ==> EntryFields(o, CITY_FIELDS)[k] == o.values[k]
    ensures forall k :: k in EntryFields(o, ASN_FIELDS) <==>
      o.Entry? && k in o.values && k in {"as_organization", "as_number"}
    ensures forall k :: k in EntryFields(o, ASN_FIELDS) ==> EntryFields(o, ASN_FIELDS)[k] == o.values[k]
  {}

  /** That leaves nothing open: exactly one answer holds these things. */
  lemma GeoContentsDecide(db: GeoDatabases, ip: string, a: Answer)
    ensures GeoContents(db.city(ip), db.asn(ip), ip, a) <==> a == GeoAnswer(db, ip)
  {
    hide EntryFields, CITY_FIELDS, ASN_FIELDS;
    var city, asn := db.city(ip), db.asn(ip);
    if GeoAnswer(db, ip).cacheAs.Some? {
      AnswerHasFields(db, ip);
      if GeoContents(city, asn, ip, a) {
        MergeIsDecided(city, asn, ip, a, GeoAnswer(db, ip));
      }
    }
  }

  lemma AnswerHasFields(db: GeoDatabases, ip: string)
    requires GeoAnswer(db, ip).cacheAs.Some?
    ensures GeoContents(db.city(ip), db.asn(ip), ip, GeoAnswer(db, ip))
  {
    hide EntryFields, CITY_FIELDS, ASN_FIELDS;
    var city, asn := db.city(ip), db.asn(ip);
    FieldsAt(city);
    FieldsAt(asn);
  }

  lemma MergeIsDecided(city: MmdbOutcome, asn: MmdbOutcome, ip: string, a: Answer, b: Answer)
    requires GeoContents(city, asn, ip, a) && GeoContents(city, asn, ip, b)
    ensures a == b
  {
    if a.cacheAs.Some? {
      assert a.data.Keys == b.data.Keys;
      assert a.data == b.data;
    }
  }

  // ---------- MAC lookups ----------

  function MacAnswer(db: OuiDatabase, mac: string): Answer {
    match OuiResult(db, mac)
    case Err(what) => Answer(map["error" := Text(what)], None)
    case Ok(data) =>
      Answer(data, if HasError(data) then None else if Found(data) then Some(MacOui) else Some(Negative))
  }

  // ---------- what may be cached ----------

  /** Only answers without an "error" are cached, and NEGATIVE is the type of exactly those not found. */
  ghost predicate WellTyped(a: Answer) {
    && (a.cacheAs.Some? ==> !HasError(a.data))
    && (a.cacheAs.Some? ==> (a.cacheAs == Some(Negative) <==> !Found(a.data)))
  }

  lemma GeoAnswerIsWellTyped(db: GeoDatabases, ip: string)
    ensures WellTyped(GeoAnswer(db, ip))
    ensures GeoAnswer(db, ip).cacheAs.None? <==> HasError(GeoAnswer(db, ip).data)
    ensures Found(GeoAnswer(db, ip).data) ==> db.city(ip).Entry? || db.asn(ip).Entry?
  {
    FieldsAreNotMeta(db.city(ip));
    FieldsAreNotMeta(db.asn(ip));
  }

  lemma MacAnswerIsWellTyped(db: OuiDatabase, mac: string)
    ensures WellTyped(MacAnswer(db, mac))
    ensures MacAnswer(db, mac).cacheAs.None? <==> HasError(MacAnswer(db, mac).data)
  {}

  /** Spellings of one MAC address are answered and cached alike, up to the echoed spelling. */
  lemma MacAnswersAgree(db: OuiDatabase, a: string, b: string)
    requires Normalize(a) == Normalize(b)
    ensures MacAnswer(db, a).cacheAs == MacAnswer(db, b).cacheAs
    ensures MacAnswer(db, a).data - {"mac"} == MacAnswer(db, b).data - {"mac"}
  {
    SpellingDoesNotMatter(db, a, b);
    if OuiResult(db, a).Ok? {
      SameBesidesMac(OuiResult(db, a).value, OuiResult(db, b).value);
    }
  }

  lemma SameBesidesMac(x: Json, y: Json)
    requires x - {"mac"} == y - {"mac"}
    ensures HasError(x) == HasError(y) && Found(x) == Found(y)
  {
    assert HasError(x) == HasError(x - {"mac"}) && HasError(y) == HasError(y - {"mac"});
    assert Found(x) == Found(x - {"mac"}) && Found(y) == Found(y - {"mac"});
  }

  /** The databases as they would be if the ASN database reported no errors, only missing entries. */
  function WithoutAsnErrors(db: GeoDatabases): GeoDatabases {
    GeoDatabases(db.city, ip => if db.asn(ip).ErrorText().Some? then NoEntry else db.asn(ip))
  }

  /** A database reported an error for `ip`, and the answer has none. */
  predicate HidesError(db: GeoDatabases, ip: string) {
    && (db.city(ip).ErrorText().Some? || db.asn(ip).ErrorText().Some?)
    && !HasError(GeoAnswer(db, ip).data)
  }

  /**
   * Exactly which errors are hidden, and what becomes of them: an error of the ASN database counts
   * as a missing entry everywhere. It never reaches the answer by itself: the answer hides it unless
   * the city database failed too. A hidden error is always cached, as a negative exactly if the
   * city database lacks the address, and otherwise as a full answer.
   */
  lemma AsnErrorsAreHidden(db: GeoDatabases, ip: string)
    ensures GeoAnswer(db, ip) == GeoAnswer(WithoutAsnErrors(db), ip)
    ensures HidesError(db, ip) <==>
      db.asn(ip).ErrorText().Some? && !db.city(ip).Raised? && db.city(ip).ErrorText().None?
    ensures HidesError(db, ip) ==> GeoAnswer(db, ip).cacheAs.Some?
    ensures db.asn(ip).ErrorText().Some? ==>
      && (GeoAnswer(db, ip).cacheAs == Some(Negative) <==> db.city(ip).NoEntry?)
      && (GeoAnswer(db, ip).cacheAs == Some(IpGeolocation) <==> db.city(ip).Entry?)
  {
    GeoAnswerIsWellTyped(db, ip);
    assert EntryFields(WithoutAsnErrors(db).asn(ip), ASN_FIELDS) == EntryFields(db.asn(ip), ASN_FIELDS);
  }
}
