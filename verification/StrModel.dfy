/** The parsed `.str` structure (str_parser/models.py), as far as the mesh
    algorithms read it. */
module StrModel {
  datatype Coordinate = Coordinate(id: int, x: real, y: real)
  datatype Region = Region(id: int, materialId: int)

  /** `neighbors[i]` lies across the side opposite vertex i: an element index, or
      a negative boundary code. */
  datatype Element = Element(id: int, regionId: int, vertices: seq<int>, neighbors: seq<int>, extra: seq<int>)

  datatype NodeSolution = NodeSolution(coordinateIndex: int, materialId: int, values: seq<real>)

  datatype Structure = Structure(
    dimension: int,
    verticesPerElement: int,
    neighborsPerElement: int,
    coordinates: seq<Coordinate>,
    regions: seq<Region>,
    elements: seq<Element>,
    solutions: seq<NodeSolution>)

  /** `{r.id: r.material_id}`: a later region with the same id wins. */
  function MaterialOf(rs: seq<Region>): map<int, int> {
    if rs == [] then map[] else MaterialOf(rs[..|rs|-1])[rs[|rs|-1].id := rs[|rs|-1].materialId]
  }

  /** Region k is the last one with this id. */
  predicate LastRegion(rs: seq<Region>, k: nat, id: int) {
    k < |rs| && rs[k].id == id && forall j :: k < j < |rs| ==> rs[j].id != id
  }

  lemma {:induction false} MaterialOfIs(rs: seq<Region>, id: int)
    ensures id in MaterialOf(rs) <==> exists k: nat :: LastRegion(rs, k, id)
    ensures forall k: nat :: LastRegion(rs, k, id) ==> MaterialOf(rs)[id] == rs[k].materialId
  {
    if rs != [] {
      var rest, last := rs[..|rs|-1], rs[|rs|-1];
      MaterialOfIs(rest, id);
      if last.id == id {
        assert LastRegion(rs, |rest|, id);
      } else {
        forall k: nat ensures LastRegion(rs, k, id) <==> LastRegion(rest, k, id) {
          StillLastRegion(rs, k, id);
        }
      }
    }
  }

  lemma StillLastRegion(rs: seq<Region>, k: nat, id: int)
    requires |rs| > 0 && rs[|rs|-1].id != id
    ensures LastRegion(rs, k, id) <==> LastRegion(rs[..|rs|-1], k, id)
  {
    if LastRegion(rs, k, id) {
      assert rs[..|rs|-1][k] == rs[k];
    }
  }
}
