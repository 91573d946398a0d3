/**
 * Flattening of nested configuration pools, and the file-name helper of the
 * training-data utilities.
 */
module Pool {
  import opened Wrappers
  import opened Structures

  // ---------------------------------------------------------------------------
  // flatten(atoms_object, recursive)

  /** The leaves of one element: a list is descended into, anything else is kept whole. */
  function LeavesOf(e: Entry): seq<Entry>
    decreases e
  {
    if e.Container() then Leaves(e.items) else [e]
  }

  /** The left-to-right leaves of a nested list (the recursive flatten). */
  function Leaves(items: seq<Entry>): seq<Entry>
    decreases items
  {
    if items == [] then [] else LeavesOf(items[0]) + Leaves(items[1..])
  }

  /** Leaves of a concatenation: flattening keeps left-to-right order. */
  lemma {:induction false} LeavesAppend(a: seq<Entry>, b: seq<Entry>)
    ensures Leaves(a + b) == Leaves(a) + Leaves(b)
  {
    if a == [] {
      assert a + b == b;
    } else {
      assert (a + b)[1..] == a[1..] + b;
      assert (a + b)[0] == a[0];
      LeavesAppend(a[1..], b);
    }
  }

  /** No list or other container survives a recursive flatten, at any depth. */
  lemma {:induction false} LeavesAreFlat(items: seq<Entry>)
    ensures forall k :: 0 <= k < |Leaves(items)| ==> !Leaves(items)[k].Container()
    decreases items
  {
    if items != [] {
      var head: seq<Entry>, tail: seq<Entry> := LeavesOf(items[0]), Leaves(items[1..]);
      if items[0].Container() {
        LeavesAreFlat(items[0].items);
      }
      LeavesAreFlat(items[1..]);
      forall k | 0 <= k < |head + tail| ensures !(head + tail)[k].Container() {
        if k >= |head| {
          assert (head + tail)[k] == tail[k - |head|];
        } else if items[0].Container() {
          assert head == Leaves(items[0].items);
          assert (head + tail)[k] == Leaves(items[0].items)[k];
        } else {
          assert (head + tail)[k] == items[0];
        }
      }
    }
  }

  /** A list none of whose elements is a container is its own flattening: Atoms, str and bytes are never opened. */
  lemma {:induction false} LeavesOfFlatList(items: seq<Entry>)
    requires forall k :: 0 <= k < |items| ==> !items[k].Container()
    ensures Leaves(items) == items
  {
    if items != [] {
      LeavesOfFlatList(items[1..]);
      assert items == [items[0]] + items[1..];
    }
  }

  /** Every leaf of the flattening occurs somewhere in the nested input. */
  lemma {:induction false} LeafInInput(items: seq<Entry>, k: nat)
    requires k < |Leaves(items)|
    ensures exists i :: 0 <= i < |items| && (items[i] == Leaves(items)[k] || (items[i].Container() && Leaves(items)[k] in Leaves(items[i].items)))
    decreases items
  {
    var head := LeavesOf(items[0]);
    if k < |head| {
      assert Leaves(items)[k] == head[k];
      if items[0].Container() {
        assert Leaves(items)[k] in Leaves(items[0].items);
      }
    } else {
      LeafInInput(items[1..], k - |head|);
      var i :| 0 <= i < |items[1..]| && (items[1..][i] == Leaves(items[1..])[k - |head|] || (items[1..][i].Container() && Leaves(items[1..])[k - |head|] in Leaves(items[1..][i].items)));
      assert items[i + 1] == items[1..][i];
    }
  }

  /** What iterating one element yields, or None when it is not iterable. */
  function Iterate(e: Entry): (r: Option<seq<Entry>>)
    ensures r.None? <==> (e.Scalar? || e.AtomItem?)
    ensures e.Container() ==> r == Some(e.items)
    ensures e.Text? ==> r.Some? && |r.value| == |e.text|
    ensures e.AtomsItem? ==> r.Some? && |r.value| == |e.structure.sites|
  {
    match e
    case List(items) => Some(items)
    case Tuple(items) => Some(items)
    case Text(t) => Some(seq(|t|, k requires 0 <= k < |t| => Text([t[k]])))
    case Bytes(b) => Some(seq(|b|, k requires 0 <= k < |b| => Scalar(b[k] as int)))
    case AtomsItem(s) => Some(seq(|s.sites|, k requires 0 <= k < |s.sites| => AtomItem(s.sites[k])))
    case AtomItem(_) => None
    case Scalar(_) => None
  }

  /** The non-recursive flatten: one level of iteration, a TypeError on a non-iterable element. */
  function FlattenOnce(items: seq<Entry>): (r: Result<seq<Entry>>)
    ensures r.Ok? <==> forall i :: 0 <= i < |items| ==> Iterate(items[i]).Some?
    ensures r.Err? ==> r.error == TypeError
  {
    if items == [] then Ok([])
    else match Iterate(items[0])
      case None => Err(TypeError)
      case Some(head) =>
        match FlattenOnce(items[1..])
        case Err(e) => Err(e)
        case Ok(tail) => Ok(head + tail)
  }

  /** Concatenation of a list of lists. */
  function Concat(xss: seq<seq<Entry>>): seq<Entry>
  {
    if xss == [] then [] else xss[0] + Concat(xss[1..])
  }

  /** On a list of lists the non-recursive flatten is the concatenation of the sublists. */
  lemma {:induction false} FlattenOnceOfLists(items: seq<Entry>)
    requires forall i :: 0 <= i < |items| ==> items[i].Container()
    ensures FlattenOnce(items) == Ok(Concat(seq(|items|, i requires 0 <= i < |items| && items[i].Container() => items[i].items)))
  {
    if items != [] {
      FlattenOnceOfLists(items[1..]);
      var xss := seq(|items|, i requires 0 <= i < |items| && items[i].Container() => items[i].items);
      assert xss[1..] == seq(|items[1..]|, i requires 0 <= i < |items[1..]| && items[1..][i].Container() => items[1..][i].items);
    }
  }

  /**
   * On a list of lists of leaves (the documented input: lists of Atoms) the
   * recursive and the non-recursive flatten agree.
   */
  lemma {:induction false} FlattenModesAgree(items: seq<Entry>)
    requires forall i :: 0 <= i < |items| ==> items[i].Container()
    requires forall i, k :: 0 <= i < |items| && items[i].Container() && 0 <= k < |items[i].items| ==> !items[i].items[k].Container()
    ensures FlattenOnce(items) == Ok(Leaves(items))
  {
    if items != [] {
      FlattenModesAgree(items[1..]);
      LeavesOfFlatList(items[0].items);
    }
  }

  /**
   * `flatten`: the recursive mode appends leaves and extends with the flattening
   * of every nested list; the other mode is the one-level comprehension.
   */
  method Flatten(items: seq<Entry>, recursive: bool) returns (r: Result<seq<Entry>>)
    ensures recursive ==> r == Ok(Leaves(items))
    ensures !recursive ==> r == FlattenOnce(items)
    decreases items
  {
    if !recursive {
      return FlattenOnce(items);
    }
    var iterationList: seq<Entry> := [];
    for i := 0 to |items|
      invariant iterationList == Leaves(items[..i])
    {
      var element := items[i];
      if element.Container() {
        var sub := Flatten(element.items, true);
        iterationList := iterationList + sub.value;
      } else {
        iterationList := iterationList + [element];
      }
      assert items[..i + 1] == items[..i] + [element];
      LeavesAppend(items[..i], [element]);
      assert Leaves([element]) == LeavesOf(element) + Leaves([]);
    }
    assert items[..|items|] == items;
    return Ok(iterationList);
  }

  // ---------------------------------------------------------------------------
  // extract_base_name(filename, is_out)

  /** `t` occurs in `s` starting at position `i`. */
  predicate OccursAt(s: string, t: string, i: int)
  {
    0 <= i && i + |t| <= |s| && s[i..i + |t|] == t
  }

  /** Python's `t in s` on strings. */
  predicate Contains(s: string, t: string)
  {
    exists i | 0 <= i <= |s| - |t| :: OccursAt(s, t, i)
  }

  /** `s.split(c, 1)[0]`: everything before the first `c`, or all of `s`. */
  function BeforeFirst(s: string, c: char): (r: string)
    ensures r <= s && c !in r
    ensures |r| < |s| ==> s[|r|] == c
  {
    if s == [] || s[0] == c then [] else [s[0]] + BeforeFirst(s[1..], c)
  }

  /** What `extract_base_name` returns for an output file carrying neither tag. */
  const FilesProblem: string := "A problem with the files occurred."

  /**
   * `extract_base_name`: for an output file the "quip_train" / "quip_test" tag it
   * contains (the fixed problem message when it has neither), otherwise the part
   * before the first '.' and then before the first '_'.
   */
  function ExtractBaseName(filename: string, isOut: bool): (r: string)
    ensures isOut && Contains(filename, "quip_train") ==> r == "quip_train"
    ensures isOut && !Contains(filename, "quip_train") && Contains(filename, "quip_test") ==> r == "quip_test"
    ensures isOut && !Contains(filename, "quip_train") && !Contains(filename, "quip_test") ==> r == FilesProblem
    ensures !isOut ==> r <= filename && '.' !in r && '_' !in r
    ensures !isOut ==> |r| == |filename| || filename[|r|] == '.' || filename[|r|] == '_'
  {
    if isOut then
      if Contains(filename, "quip_train") then "quip_train"
      else if Contains(filename, "quip_test") then "quip_test"
      else FilesProblem
    else
      var baseName := BeforeFirst(filename, '.');
      BeforeFirst(baseName, '_')
  }

  /** For an output file, any name other than the problem message is a tag the file name contains. */
  lemma OutTagOccursInName(filename: string)
    requires ExtractBaseName(filename, true) != FilesProblem
    ensures Contains(filename, ExtractBaseName(filename, true))
    ensures ExtractBaseName(filename, true) in {"quip_train", "quip_test"}
  {
  }

  /** The two splits together cut at the first '.' or '_', whichever comes first. */
  lemma BaseNameIsLongestPlainPrefix(filename: string, p: string)
    requires p <= filename && '.' !in p && '_' !in p
    ensures |p| <= |ExtractBaseName(filename, false)|
  {
  }
}
