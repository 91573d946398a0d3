/**
 * Atomic configurations and the nested Python lists that carry them.
 * A configuration is kept as its cell parameters (a, b, c, alpha, beta, gamma),
 * its sites in fractional coordinates, and the metadata the samplers read.
 */
module Structures {
  import opened Wrappers

  /** Cell parameters a, b, c (lengths) and alpha, beta, gamma (angles, degrees). */
  type CellPar = p: seq<real> | |p| == 6 witness [1.0, 1.0, 1.0, 90.0, 90.0, 90.0]

  datatype Site = Site(symbol: string, frac: (real, real, real))

  /**
   * An ASE Atoms / pymatgen Structure: the cell, the sites, and the `info`
   * entries used here (`energy`, `pressure`, `descriptor_vec`).
   */
  datatype Structure = Structure(
    cell: CellPar,
    sites: seq<Site>,
    energy: Option<real>,
    pressure: Option<real>,
    descriptor: Option<seq<real>>)
  {
    function NumSites(): nat { |sites| }
  }

  /**
   * An element of a Python list as the flattening code sees it: an Atoms object,
   * a single Atom (what iterating an Atoms yields), a str, a bytes, a
   * non-iterable scalar, a Python list, or a tuple (standing for any other
   * iterable container, which `isinstance(x, list)` does not accept).
   */
  datatype Entry =
    | AtomsItem(structure: Structure)
    | AtomItem(site: Site)
    | Text(text: string)
    | Bytes(data: seq<bv8>)
    | Scalar(value: int)
    | List(items: seq<Entry>)
    | Tuple(items: seq<Entry>)
  {
    /** An iterable that `flatten` descends into: neither str, bytes nor Atoms. */
    predicate Container()
    {
      List? || Tuple?
    }
  }

  /** Every element is an Atoms object. */
  predicate AllAtoms(items: seq<Entry>)
  {
    forall i :: 0 <= i < |items| ==> items[i].AtomsItem?
  }

  /** The structures held by a list of Atoms objects. */
  function Unwrap(items: seq<Entry>): (r: seq<Structure>)
    requires AllAtoms(items)
    ensures |r| == |items|
    ensures forall i :: 0 <= i < |r| ==> items[i] == AtomsItem(r[i])
  {
    seq(|items|, i requires 0 <= i < |items| => items[i].structure)
  }

  /** The list of Atoms objects holding the given structures. */
  function Wrap(s: seq<Structure>): (r: seq<Entry>)
    ensures |r| == |s| && AllAtoms(r)
    ensures forall i :: 0 <= i < |r| ==> r[i] == AtomsItem(s[i])
  {
    seq(|s|, i requires 0 <= i < |s| => AtomsItem(s[i]))
  }

  lemma WrapUnwrap(items: seq<Entry>)
    requires AllAtoms(items)
    ensures Wrap(Unwrap(items)) == items
  {
  }

  /**
   * A Python list object that callers share: deleting from it is seen by
   * every holder of the reference.
   */
  class PyList {
    var items: seq<Entry>

    constructor(items: seq<Entry>)
      ensures this.items == items
    {
      this.items := items;
    }

    /** `del lst[i]`; an index past the end raises IndexError and changes nothing. */
    method Delete(i: nat) returns (failure: Option<Exception>)
      modifies this
      ensures i < |old(items)| ==> failure.None? && items == old(items)[..i] + old(items)[i + 1..]
      ensures i >= |old(items)| ==> failure == Some(IndexError) && items == old(items)
    {
      if i >= |items| {
        return Some(IndexError);
      }
      items := items[..i] + items[i + 1..];
      return None;
    }
  }
}
