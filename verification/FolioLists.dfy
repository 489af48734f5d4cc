/** Lists of page-cache folios, as the kernel interface of the eviction policies offers them. */
module FolioLists {

  type Folio = nat

  function Without(list: seq<Folio>, f: Folio): seq<Folio> {
    if list == [] then [] else (if list[0] == f then [] else [list[0]]) + Without(list[1..], f)
  }

  lemma {:induction false} WithoutRemoves(list: seq<Folio>, f: Folio)
    ensures multiset(Without(list, f)) == multiset(list)[f := 0]
  {
    if list != [] {
      WithoutRemoves(list[1..], f);
      assert list == [list[0]] + list[1..];
    }
  }
}
