/** The record store behind the edge, as its client sees it: records under ids, in named collections. */
module Store {
  import opened Values

  type Fields = map<string, Json>

  datatype Key = Key(target: string, id: string)

  type Docs = map<Key, Fields>

  // Every record carries the id it is kept under.
  ghost predicate Keyed(docs: Docs) {
    forall k :: k in docs ==> HasId(docs[k], k.id) && k.id != ""
  }

  predicate HasId(fields: Fields, id: string) {
    "id" in fields && fields["id"] == Str(id)
  }

  // The record under the key, or None when there is none.
  function At(docs: Docs, k: Key): Option<Fields> {
    if k in docs then Some(docs[k]) else None
  }

  datatype WriteReply = Rejected | Written(docs: Docs, id: string)

  // A new record goes under the id it brings, which must be free, or else under one the store picks.
  function Create(docs: Docs, target: string, doc: Fields, picked: string): WriteReply {
    var id := if "id" in doc then doc["id"] else Str(picked);
    if id.Str? && id.s != "" && Key(target, id.s) !in docs then
      Written(docs[Key(target, id.s) := doc["id" := id]], id.s)
    else
      Rejected
  }

  // The changes are merged into the record; a changed id moves it, if the new id is free.
  function Update(docs: Docs, target: string, id: string, changes: Fields): WriteReply {
    var k := Key(target, id);
    if k !in docs then Rejected
    else
      var merged := docs[k] + changes;
      if "id" in changes && changes["id"] != Str(id) then
        if changes["id"].Str? && changes["id"].s != "" && Key(target, changes["id"].s) !in docs then
          Written((docs - {k})[Key(target, changes["id"].s) := merged], changes["id"].s)
        else
          Rejected
      else
        Written(docs[k := merged], id)
  }

  function Delete(docs: Docs, target: string, id: string): WriteReply {
    if Key(target, id) in docs then Written(docs - {Key(target, id)}, id) else Rejected
  }

  lemma WritesKeepKeys(docs: Docs, target: string, id: string, doc: Fields, picked: string)
    requires Keyed(docs)
    ensures var r := Create(docs, target, doc, picked); r.Written? ==> Keyed(r.docs) && r.id != ""
    ensures var r := Update(docs, target, id, doc); r.Written? ==> Keyed(r.docs) && r.id != ""
    ensures var r := Delete(docs, target, id); r.Written? ==> Keyed(r.docs) && r.id != ""
  {
  }
}
