/** The persona registry (app/persona.py): personas read once from the
    `personas` section of a YAML file, then looked up with documented
    defaults. */
module Personas {
  import opened Wrappers
  import opened Json
  import opened KeyValue

  /** The persona get_default_persona prefers when it is configured. */
  const PreferredPersona: string := "mental_health_nurse"
  /** get_persona_info's defaults for a persona that leaves a field out. */
  const DefaultTemperature: Json := JFloat(Number(7, -1))
  const DefaultMaxTokens: Json := JInt(500)

  /** A parsed `personas` section: its keys in file order and the mapping
      under each key. */
  datatype Catalogue = Catalogue(keys: seq<string>, entries: map<string, Record>)

  ghost predicate WellFormed(c: Catalogue) {
    Distinct(c.keys) && forall k :: k in c.keys <==> k in c.entries
  }

  /** What reading the personas file yields: no file, a read or parse failure,
      or a parsed document with or without a `personas` section. */
  datatype PersonaFile = Missing | Unreadable | Parsed(personas: Option<Catalogue>)

  /** get_persona_info's result: `{}` for an unknown persona, else the
      summary dict. */
  datatype PersonaInfo =
    | NoInfo
    | Info(key: string, name: Json, role: Json, temperature: Json, maxTokens: Json, tags: Json)

  /** `d.get(key, default)` on a persona mapping. */
  function Lookup(d: Record, key: string, default: Json): (r: Json)
    ensures key in d ==> r == d[key]
    ensures key !in d ==> r == default
  {
    if key in d then d[key] else default
  }

  class PersonaManager {
    /** The persona keys in load order. */
    const keys: seq<string>
    const personas: map<string, Record>

    ghost predicate Valid() {
      Distinct(keys) && forall k :: k in keys <==> k in personas
    }

    /** __init__ with _load_personas: a missing or unreadable file, or one
        without a `personas` section, leaves the registry empty. */
    constructor (file: PersonaFile)
      requires file.Parsed? && file.personas.Some? ==> WellFormed(file.personas.value)
      ensures Valid()
      ensures file.Parsed? && file.personas.Some? ==>
        keys == file.personas.value.keys && personas == file.personas.value.entries
      ensures !(file.Parsed? && file.personas.Some?) ==> keys == [] && personas == map[]
    {
      if file.Parsed? && file.personas.Some? {
        keys := file.personas.value.keys;
        personas := file.personas.value.entries;
      } else {
        keys := [];
        personas := map[];
      }
    }

    /** A key whose persona is configured and is a non-empty mapping (Python
        truthiness of get_persona's result). */
    predicate Known(key: string) {
      key in personas && personas[key] != map[]
    }

    /** get_persona. */
    function GetPersona(key: string): (r: Option<Record>)
      ensures r.Some? <==> key in personas
      ensures r.Some? ==> r.value == personas[key]
    {
      if key in personas then Some(personas[key]) else None
    }

    /** get_system_prompt: "" unless the persona is known, then its
        `system_prompt` with "" as the default. */
    function GetSystemPrompt(key: string): (r: Json)
      ensures !Known(key) ==> r == JStr("")
      ensures Known(key) && "system_prompt" in personas[key] ==> r == personas[key]["system_prompt"]
      ensures Known(key) && "system_prompt" !in personas[key] ==> r == JStr("")
    {
      var persona := GetPersona(key);
      if persona.None? || persona.value == map[] then JStr("")
      else Lookup(persona.value, "system_prompt", JStr(""))
    }

    /** get_persona_info. */
    function GetPersonaInfo(key: string): (r: PersonaInfo)
      ensures r.NoInfo? <==> !Known(key)
      ensures r.Info? ==> r.key == key
      ensures r.Info? ==> r.name == Lookup(personas[key], "name", JStr(""))
      ensures r.Info? ==> r.role == Lookup(personas[key], "role", JStr(""))
      ensures r.Info? ==> r.temperature == Lookup(personas[key], "temperature", DefaultTemperature)
      ensures r.Info? ==> r.maxTokens == Lookup(personas[key], "max_tokens", DefaultMaxTokens)
      ensures r.Info? ==> r.tags == Lookup(personas[key], "system_tags", JArr([]))
    {
      var persona := GetPersona(key);
      if persona.None? || persona.value == map[] then NoInfo
      else
        var p := persona.value;
        Info(key, Lookup(p, "name", JStr("")), Lookup(p, "role", JStr("")),
             Lookup(p, "temperature", DefaultTemperature), Lookup(p, "max_tokens", DefaultMaxTokens),
             Lookup(p, "system_tags", JArr([])))
    }

    /** list_personas: every configured key, in load order, each once. */
    function ListPersonas(): (r: seq<string>)
      requires Valid()
      ensures Distinct(r)
      ensures forall k :: k in r <==> GetPersona(k).Some?
    {
      keys
    }

    /** get_default_persona. */
    function GetDefaultPersona(): (r: string)
      requires Valid()
      ensures PreferredPersona in personas ==> r == PreferredPersona
      ensures PreferredPersona !in personas && keys != [] ==> r == keys[0]
      ensures personas != map[] ==> r in personas
      ensures personas == map[] ==> r == ""
    {
      if PreferredPersona in personas then PreferredPersona
      else if keys != [] then assert keys[0] in keys; keys[0]
      else ""
    }
  }

  /** A missing personas file is not an error: the registry is empty, every
      lookup falls back and there is no default persona. */
  method MissingFileIsEmpty(key: string) returns (registry: PersonaManager)
    ensures registry.Valid()
    ensures registry.ListPersonas() == [] && registry.GetDefaultPersona() == ""
    ensures registry.GetPersona(key).None? && registry.GetPersonaInfo(key).NoInfo?
    ensures registry.GetSystemPrompt(key) == JStr("")
  {
    registry := new PersonaManager(Missing);
  }
}
