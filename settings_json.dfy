/** The export document: a JSON object holding one object per rule store and
    one for the settings, kept abstract (parsing and printing the text are not
    part of this model). What it fixes is what export writes and what import
    replaces, including the order in which a failing import gives up. */
module SettingsJson {
  import opened KotlinStd
  import opened PrefMaps

  datatype JValue = JBool(b: bool) | JString(s: string) | JObject(fields: map<string, JValue>) | JOther

  /** The top-level JSON object of an export file. */
  type Document = map<string, JValue>

  /** How `JSONObject.put` records a store value. */
  function ToJson(v: Value): (r: JValue)
    ensures r.JBool? <==> v.B?
    ensures r.JString? <==> v.S?
    ensures v.B? ==> JsonToBoolean(r) == Some(v.b)
  {
    match v
    case B(b) => JBool(b)
    case S(s) => JString(s)
    case Other => JOther
  }

  /** The rule store's section: every entry, whatever its type. */
  function ExportRules(m: map<string, Value>): (r: map<string, JValue>)
    ensures r.Keys == m.Keys
    ensures forall k :: k in m ==> r[k] == ToJson(m[k])
  {
    map k | k in m :: ToJson(m[k])
  }

  /** The settings section: only the boolean and string entries. */
  function ExportDefaults(d: map<string, Value>): (r: map<string, JValue>)
    ensures forall k :: k in r <==> k in d && (d[k].B? || d[k].S?)
    ensures forall k :: k in r ==> r[k] == ToJson(d[k])
  {
    map k | k in d && (d[k].B? || d[k].S?) :: ToJson(d[k])
  }

  /** `exportAllSettings`: the rule store under its mode's name, the settings under "defaults". */
  function ExportDocument(rules: map<string, Value>, defaults: map<string, Value>): (doc: Document)
    ensures doc.Keys == {ModeKey(Vpn), DefaultsSection}
    ensures doc[ModeKey(Vpn)] == JObject(ExportRules(rules))
    ensures doc[DefaultsSection] == JObject(ExportDefaults(defaults))
  {
    map[ModeKey(Vpn) := JObject(ExportRules(rules)), DefaultsSection := JObject(ExportDefaults(defaults))]
  }

  /** `JSONObject.getBoolean`: a boolean, or a string "true" / "false" in any case; anything else fails. */
  function JsonToBoolean(v: JValue): (r: Option<bool>)
    ensures v.JBool? ==> r == Some(v.b)
    ensures r.Some? ==> v.JBool? || (v.JString? && EqualsIgnoreCase(v.s, if r.value then "true" else "false"))
    ensures v.JString? && EqualsIgnoreCase(v.s, "true") ==> r == Some(true)
    ensures v.JString? && EqualsIgnoreCase(v.s, "false") ==> r == Some(false)
    ensures !v.JBool? && !v.JString? ==> r.None?
  {
    match v
    case JBool(b) => Some(b)
    case JString(s) =>
      if EqualsIgnoreCase(s, "true") then Some(true)
      else if EqualsIgnoreCase(s, "false") then Some(false)
      else None
    case _ => None
  }

  /** The rule store an import writes: every field read with `getBoolean`, or
      nothing when one of them is not a boolean. */
  function RulesFromJson(fields: map<string, JValue>): (r: Option<map<string, Value>>)
    ensures r.Some? <==> forall k :: k in fields ==> JsonToBoolean(fields[k]).Some?
    ensures r.Some? ==> r.value.Keys == fields.Keys
    ensures r.Some? ==> forall k :: k in fields ==> r.value[k] == B(JsonToBoolean(fields[k]).value)
  {
    if forall k :: k in fields ==> JsonToBoolean(fields[k]).Some? then
      Some(map k | k in fields :: B(JsonToBoolean(fields[k]).value))
    else None
  }

  /** A settings field as imported: booleans and strings are kept, the rest dropped. */
  function FromJson(v: JValue): (r: Value)
    requires v.JBool? || v.JString?
    ensures ToJson(r) == v
  {
    if v.JBool? then B(v.b) else S(v.s)
  }

  /** The settings store an import writes. */
  function DefaultsFromJson(fields: map<string, JValue>): (r: map<string, Value>)
    ensures forall k :: k in r <==> k in fields && (fields[k].JBool? || fields[k].JString?)
    ensures forall k :: k in r ==> r[k] == FromJson(fields[k])
  {
    map k | k in fields && (fields[k].JBool? || fields[k].JString?) :: FromJson(fields[k])
  }

  /** The outcome of an import: whether it reported success, and both stores after it. */
  datatype ImportResult = ImportResult(ok: bool, rules: map<string, Value>, defaults: map<string, Value>)

  /** `importAllSettings` on a parsed document (`None`: the text was not a JSON
      object). The rule store is cleared and rewritten first; the settings
      section, read afterwards, is optional but must be an object when present. */
  function Import(parsed: Option<Document>, rules: map<string, Value>, defaults: map<string, Value>): (r: ImportResult)
    ensures parsed.None? ==> r == ImportResult(false, rules, defaults)
    ensures !r.ok ==> r.defaults == defaults
    ensures r.ok ==> parsed.Some? && (DefaultsSection !in parsed.value ==> r.defaults == defaults)
  {
    if parsed.None? then ImportResult(false, rules, defaults)
    else
      var doc := parsed.value;
      if ModeKey(Vpn) !in doc || !doc[ModeKey(Vpn)].JObject? then ImportResult(false, rules, defaults)
      else
        var newRules := RulesFromJson(doc[ModeKey(Vpn)].fields);
        if newRules.None? then ImportResult(false, rules, defaults)
        else if DefaultsSection !in doc then ImportResult(true, newRules.value, defaults)
        else if !doc[DefaultsSection].JObject? then ImportResult(false, newRules.value, defaults)
        else ImportResult(true, newRules.value, DefaultsFromJson(doc[DefaultsSection].fields))
  }

  /** A successful import leaves exactly the document's rule section in the
      rule store, each value read as a boolean: no earlier key survives. */
  lemma ImportReplacesRules(parsed: Option<Document>, rules: map<string, Value>, defaults: map<string, Value>)
    requires Import(parsed, rules, defaults).ok
    ensures parsed.Some? && ModeKey(Vpn) in parsed.value && parsed.value[ModeKey(Vpn)].JObject?
    ensures var section := parsed.value[ModeKey(Vpn)].fields;
      && Import(parsed, rules, defaults).rules.Keys == section.Keys
      && forall k :: k in section ==> Import(parsed, rules, defaults).rules[k] == B(JsonToBoolean(section[k]).value)
  {
  }

  /** A successful import rewrites the settings store from the "defaults"
      section when there is one and leaves it alone when there is none. */
  lemma ImportReplacesDefaultsIfPresent(doc: Document, rules: map<string, Value>, defaults: map<string, Value>)
    requires Import(Some(doc), rules, defaults).ok
    ensures DefaultsSection !in doc ==> Import(Some(doc), rules, defaults).defaults == defaults
    ensures DefaultsSection in doc ==>
      && doc[DefaultsSection].JObject?
      && Import(Some(doc), rules, defaults).defaults == DefaultsFromJson(doc[DefaultsSection].fields)
  {
  }

  /** Without a readable rule section the import fails and changes nothing. */
  lemma ImportRejectsBadRules(doc: Document, rules: map<string, Value>, defaults: map<string, Value>)
    requires || ModeKey(Vpn) !in doc
             || !doc[ModeKey(Vpn)].JObject?
             || exists k :: k in doc[ModeKey(Vpn)].fields && JsonToBoolean(doc[ModeKey(Vpn)].fields[k]).None?
    ensures Import(Some(doc), rules, defaults) == ImportResult(false, rules, defaults)
  {
  }

  /** A "defaults" entry that is not an object makes the import fail after the
      rule store has been replaced: the import is not transactional. */
  lemma ImportNotTransactional(doc: Document, rules: map<string, Value>, defaults: map<string, Value>)
    requires ModeKey(Vpn) in doc && doc[ModeKey(Vpn)].JObject?
    requires RulesFromJson(doc[ModeKey(Vpn)].fields).Some?
    requires DefaultsSection in doc && !doc[DefaultsSection].JObject?
    ensures Import(Some(doc), rules, defaults)
         == ImportResult(false, RulesFromJson(doc[ModeKey(Vpn)].fields).value, defaults)
  {
  }

  /** Importing an export restores the rule store and the boolean and string
      settings, whatever the stores held before, provided every rule is a boolean. */
  lemma {:induction false} ExportImportRoundTrip(
    rules: map<string, Value>, defaults: map<string, Value>,
    before: map<string, Value>, beforeDefaults: map<string, Value>)
    requires forall k :: k in rules ==> rules[k].B?
    ensures Import(Some(ExportDocument(rules, defaults)), before, beforeDefaults)
         == ImportResult(true, rules, map k | k in defaults && (defaults[k].B? || defaults[k].S?) :: defaults[k])
  {
    var doc := ExportDocument(rules, defaults);
    var section := doc[ModeKey(Vpn)].fields;
    assert section == ExportRules(rules);
    forall k | k in section ensures JsonToBoolean(section[k]) == Some(rules[k].b) {
      assert section[k] == ToJson(rules[k]) == JBool(rules[k].b);
    }
    var newRules := RulesFromJson(section);
    assert newRules.value == rules;
    var settings := doc[DefaultsSection].fields;
    assert settings == ExportDefaults(defaults);
    assert DefaultsFromJson(settings) == map k | k in defaults && (defaults[k].B? || defaults[k].S?) :: defaults[k];
  }

  /** When every setting is a boolean or a string, the round trip restores the
      whole state: export, change anything, import the export, and the stores
      are back as they were. */
  lemma ExportImportRestoresState(
    rules: map<string, Value>, defaults: map<string, Value>,
    changed: map<string, Value>, changedDefaults: map<string, Value>)
    requires forall k :: k in rules ==> rules[k].B?
    requires forall k :: k in defaults ==> defaults[k].B? || defaults[k].S?
    ensures Import(Some(ExportDocument(rules, defaults)), changed, changedDefaults) == ImportResult(true, rules, defaults)
  {
    ExportImportRoundTrip(rules, defaults, changed, changedDefaults);
    assert (map k | k in defaults && (defaults[k].B? || defaults[k].S?) :: defaults[k]) == defaults;
  }
}
