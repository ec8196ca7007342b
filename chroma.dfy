/** The part of the vector store the backend relies on: named collections of entries, looked
    up by name, created when absent and appended to. Similarity search is not part of this
    model; the tools that query receive the store's answer as a parameter. */
module Chroma {

  /** One stored entry: the record id, the document text, its embedding and its metadata. */
  datatype Entry = Entry(id: string, document: string, embedding: seq<real>, metadata: map<string, string>)

  /** `collections` with `name` present: an existing collection is kept, a missing one starts empty. */
  function WithCollection(collections: map<string, seq<Entry>>, name: string): (r: map<string, seq<Entry>>)
    ensures name in r
    ensures name in collections ==> r == collections
    ensures name !in collections ==> r == collections[name := []]
  {
    if name in collections then collections else collections[name := []]
  }

  /** A persistent client: a map from collection name to the entries added to it, in order. */
  class Store {
    var collections: map<string, seq<Entry>>

    constructor ()
      ensures collections == map[]
    {
      collections := map[];
    }

    /** `get_collection(name)`: succeeds exactly when the collection exists. */
    method GetCollection(name: string) returns (found: bool)
      ensures found <==> name in collections
    {
      found := name in collections;
    }

    /** `create_collection(name)`: fails when the name is taken, otherwise adds an empty collection. */
    method CreateCollection(name: string) returns (created: bool)
      modifies this
      ensures created <==> name !in old(collections)
      ensures collections == WithCollection(old(collections), name)
    {
      created := name !in collections;
      if created {
        collections := collections[name := []];
      }
    }

    /** `collection.add(...)`: the entries are appended to the collection, in order. */
    method Add(name: string, entries: seq<Entry>)
      requires name in collections
      modifies this
      ensures collections == old(collections)[name := old(collections)[name] + entries]
    {
      collections := collections[name := collections[name] + entries];
    }
  }
}
