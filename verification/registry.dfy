/** The per-provider model tables of models/gemini.js and models/llama.js. */
module Registry {
  import opened Wrappers
  import FirstMatch

  /** One declared model: `{id, name, description, maxTokens}`. */
  datatype ModelInfo = ModelInfo(id: string, name: string, description: string, maxTokens: nat)

  /** A table entry `key: {…}`; a table is a sequence of entries in declaration order. */
  datatype Entry = Entry(key: string, info: ModelInfo)

  /** One record of `getAvailableModels()`. */
  datatype Listing = Listing(id: string, name: string, description: string, provider: string)

  /** The keys of a table are pairwise distinct (an object literal has one value per key). */
  predicate DistinctKeys(table: seq<Entry>) {
    forall i, j :: 0 <= i < j < |table| ==> table[i].key != table[j].key
  }

  /** The ids of a table are pairwise distinct. */
  predicate DistinctIds(table: seq<Entry>) {
    forall i, j :: 0 <= i < j < |table| ==> table[i].info.id != table[j].info.id
  }

  /** `info` is declared in `table`. */
  predicate Declared(table: seq<Entry>, info: ModelInfo) {
    exists i :: 0 <= i < |table| && table[i].info == info
  }

  /** `Object.values(models).map(m => ({id, name, description, provider}))`: one record
      per declared model, in declaration order, each tagged with the provider. */
  function Available(table: seq<Entry>, provider: string): (r: seq<Listing>)
    ensures |r| == |table|
    ensures forall i :: 0 <= i < |table| ==>
              r[i].id == table[i].info.id && r[i].name == table[i].info.name
              && r[i].description == table[i].info.description && r[i].provider == provider
  {
    seq(|table|, i requires 0 <= i < |table| =>
      Listing(table[i].info.id, table[i].info.name, table[i].info.description, provider))
  }

  /** `table[key]`: the entry declared under `key`, if any; with distinct keys this is the
      only entry with that key. */
  function ByKey(table: seq<Entry>, key: string): (r: Option<ModelInfo>)
    ensures r.None? <==> forall i :: 0 <= i < |table| ==> table[i].key != key
    ensures forall i :: 0 <= i < |table| && table[i].key == key
              && (forall j :: 0 <= j < i ==> table[j].key != key)
              ==> r == Some(table[i].info)
  {
    match FirstMatch.IndexOfFirst(table, (e: Entry) => e.key == key)
    case None => None
    case Some(i) => Some(table[i].info)
  }
}
