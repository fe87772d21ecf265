/**
 * The optional state-name filter of `process_boundaries`: a single name or a
 * list of names, with Python's truthiness deciding whether it applies at all.
 */
module StateFilter {
  import opened Geo

  /** The `state_filter` argument: `None`, a `str`, or a list of `str`. */
  datatype StateFilter = NoFilter | Single(name: string) | Names(names: seq<string>)

  /** `if state_filter:`; `None`, the empty string and the empty list are false. */
  predicate IsActive(f: StateFilter)
  {
    match f
    case NoFilter => false
    case Single(s) => s != ""
    case Names(ns) => ns != []
  }

  /** The list handed to `isin`: a single string becomes a one-element list. */
  function Promote(f: StateFilter): (ns: seq<string>)
    requires IsActive(f)
    ensures ns != []
  {
    if f.Single? then [f.name] else f.names
  }

  /** `gdf[gdf['STATE_NAME'].isin(names)]`: the rows whose state is listed, in order. */
  function KeepStates(cs: seq<County>, names: seq<string>): (r: seq<County>)
    ensures |r| <= |cs|
    ensures forall c :: c in r ==> c in cs && c.stateName in names
  {
    if cs == [] then []
    else (if cs[0].stateName in names then [cs[0]] else []) + KeepStates(cs[1..], names)
  }

  /** Lines 35-39 of `process_boundaries`. */
  function ApplyFilter(cs: seq<County>, f: StateFilter): seq<County>
  {
    if IsActive(f) then KeepStates(cs, Promote(f)) else cs
  }

  /** A row survives the filter exactly when its state is listed. */
  lemma {:induction false} KeepStatesMembers(cs: seq<County>, names: seq<string>, c: County)
    ensures c in KeepStates(cs, names) <==> c in cs && c.stateName in names
  {
    if cs != [] {
      KeepStatesMembers(cs[1..], names, c);
      assert c in cs <==> c == cs[0] || c in cs[1..] by {
        assert cs == [cs[0]] + cs[1..];
      }
    }
  }

  /** Every listed row keeps its multiplicity; every other row is dropped. */
  lemma {:induction false} KeepStatesCount(cs: seq<County>, names: seq<string>, c: County)
    ensures multiset(KeepStates(cs, names))[c] == if c.stateName in names then multiset(cs)[c] else 0
  {
    if cs != [] {
      KeepStatesCount(cs[1..], names, c);
      assert cs == [cs[0]] + cs[1..];
      assert multiset(cs) == multiset([cs[0]]) + multiset(cs[1..]);
    }
  }

  /** The filter works row by row, so it keeps the relative order of the rows. */
  lemma {:induction false} KeepStatesAppend(a: seq<County>, b: seq<County>, names: seq<string>)
    ensures KeepStates(a + b, names) == KeepStates(a, names) + KeepStates(b, names)
  {
    if a == [] {
      assert a + b == b;
    } else {
      assert (a + b)[0] == a[0];
      assert (a + b)[1..] == a[1..] + b;
      KeepStatesAppend(a[1..], b, names);
    }
  }

  /** A name that matches no row is not an error: the result is simply empty. */
  lemma {:induction false} KeepStatesNoMatch(cs: seq<County>, names: seq<string>)
    requires forall i :: 0 <= i < |cs| ==> cs[i].stateName !in names
    ensures KeepStates(cs, names) == []
  {
    if cs != [] {
      KeepStatesNoMatch(cs[1..], names);
    }
  }

  /** When every row's state is listed, the filter keeps the whole frame. */
  lemma {:induction false} KeepStatesAll(cs: seq<County>, names: seq<string>)
    requires forall i :: 0 <= i < |cs| ==> cs[i].stateName in names
    ensures KeepStates(cs, names) == cs
  {
    if cs != [] {
      KeepStatesAll(cs[1..], names);
      assert cs == [cs[0]] + cs[1..];
    }
  }

  /** Filtering twice by the same names is filtering once. */
  lemma {:induction false} KeepStatesIdempotent(cs: seq<County>, names: seq<string>)
    ensures KeepStates(KeepStates(cs, names), names) == KeepStates(cs, names)
  {
    if cs != [] {
      var head := if cs[0].stateName in names then [cs[0]] else [];
      KeepStatesAppend(head, KeepStates(cs[1..], names), names);
      KeepStatesIdempotent(cs[1..], names);
      assert KeepStates(head, names) == head by {
        if head != [] {
          assert head[1..] == [];
        }
      }
    }
  }

  /** The filter reads only attributes, so it commutes with reprojection. */
  lemma {:induction false} KeepStatesReprojected(cs: seq<County>, names: seq<string>, from: string, to: string, reproject: Reprojector)
    ensures KeepStates(Reprojected(cs, from, to, reproject), names) == Reprojected(KeepStates(cs, names), from, to, reproject)
  {
    if cs != [] {
      var p := Reprojected(cs, from, to, reproject);
      assert p[1..] == Reprojected(cs[1..], from, to, reproject);
      assert p[0].stateName == cs[0].stateName by {
        assert Attributes(p[0]) == Attributes(cs[0]);
      }
      var head := if cs[0].stateName in names then [cs[0]] else [];
      KeepStatesReprojected(cs[1..], names, from, to, reproject);
      ReprojectedAppend(head, KeepStates(cs[1..], names), from, to, reproject);
      assert Reprojected(head, from, to, reproject) == if p[0].stateName in names then [p[0]] else [];
    }
  }

  /** A non-empty string filters exactly as the one-element list holding it. */
  lemma StringIsSingletonList(cs: seq<County>, s: string)
    requires s != ""
    ensures ApplyFilter(cs, Single(s)) == ApplyFilter(cs, Names([s]))
  {
  }

  /** `None`, `""` and `[]` are all false, so none of them removes a row. */
  lemma InactiveFilterKeepsAll(cs: seq<County>)
    ensures ApplyFilter(cs, NoFilter) == cs
    ensures ApplyFilter(cs, Single("")) == cs
    ensures ApplyFilter(cs, Names([])) == cs
  {
  }

  /**
   * An active filter keeps exactly the rows whose state it lists, each as
   * often as in the input, and in their original order.
   */
  lemma ActiveFilterKeepsListed(cs: seq<County>, f: StateFilter, c: County)
    requires IsActive(f)
    ensures c in ApplyFilter(cs, f) <==> c in cs && c.stateName in Promote(f)
    ensures multiset(ApplyFilter(cs, f))[c] == if c.stateName in Promote(f) then multiset(cs)[c] else 0
  {
    KeepStatesMembers(cs, Promote(f), c);
    KeepStatesCount(cs, Promote(f), c);
  }
}
