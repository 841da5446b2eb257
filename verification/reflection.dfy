/**
  The reflective view of a loaded module that the startup hook relies on.

  A type is the sequence of methods reflection reports for it; an assembly maps
  type names to types. The two `Type.GetMethod` overloads used by the hook are
  modelled by `GetMethod` with a `Binding` that plays the role of the binding
  flags and parameter-type filter of each call.
*/
module Reflection {

  /** What running a method's body does: return normally or raise a fault. */
  datatype Completion = Returns | Faults(detail: string)

  /** A method as reflection describes it. */
  datatype MethodInfo = MethodInfo(
    name: string,
    isStatic: bool,
    paramCount: nat,
    returnsVoid: bool,
    behaviour: Completion)

  /** A loaded assembly: its types by full name. */
  datatype Assembly = Assembly(types: map<string, seq<MethodInfo>>)

  /** Result of `Type.GetMethod`: `null`, one method, or `AmbiguousMatchException`. */
  datatype Lookup = NoMatch | Match(found: MethodInfo) | Ambiguous

  /**
    The two searches the hook performs:
    - `StaticParameterless`: static (public or not), parameter types exactly `Type.EmptyTypes`;
    - `AnyShape`: static or instance, public or not, any parameters.
  */
  datatype Binding = StaticParameterless | AnyShape

  /** Does `m` qualify for a search for `name` under binding `b`? Names compare case-sensitively. */
  predicate Binds(b: Binding, name: string, m: MethodInfo)
  {
    && m.name == name
    && (b.StaticParameterless? ==> m.isStatic && m.paramCount == 0)
  }

  ghost predicate NoneBinds(ms: seq<MethodInfo>, b: Binding, name: string)
  {
    forall i :: 0 <= i < |ms| ==> !Binds(b, name, ms[i])
  }

  /** `ms[i]` is the one and only method of `ms` the search accepts. */
  ghost predicate BindsUniquely(ms: seq<MethodInfo>, b: Binding, name: string, i: int)
  {
    && 0 <= i < |ms|
    && Binds(b, name, ms[i])
    && forall j :: 0 <= j < |ms| && Binds(b, name, ms[j]) ==> j == i
  }

  /** Two distinct methods of `ms` are accepted by the search. */
  ghost predicate BindsTwice(ms: seq<MethodInfo>, b: Binding, name: string)
  {
    exists i, j :: 0 <= i < j < |ms| && Binds(b, name, ms[i]) && Binds(b, name, ms[j])
  }

  /** The methods of `ms` the search accepts, in declaration order. */
  function Candidates(ms: seq<MethodInfo>, b: Binding, name: string): (r: seq<MethodInfo>)
    ensures |r| <= |ms|
    ensures forall m :: m in r ==> m in ms && Binds(b, name, m)
  {
    if ms == [] then []
    else (if Binds(b, name, ms[0]) then [ms[0]] else []) + Candidates(ms[1..], b, name)
  }

  lemma {:induction false} NoCandidates(ms: seq<MethodInfo>, b: Binding, name: string)
    ensures |Candidates(ms, b, name)| == 0 <==> NoneBinds(ms, b, name)
  {
    if ms != [] {
      NoCandidates(ms[1..], b, name);
      if !Binds(b, name, ms[0]) && NoneBinds(ms[1..], b, name) {
        forall i | 0 <= i < |ms| ensures !Binds(b, name, ms[i]) {
          if i > 0 { assert ms[i] == ms[1..][i - 1]; }
        }
      }
      if NoneBinds(ms, b, name) {
        forall i | 0 <= i < |ms[1..]| ensures !Binds(b, name, ms[1..][i]) {
          assert ms[1..][i] == ms[i + 1];
        }
      }
    }
  }

  lemma {:induction false} OneCandidate(ms: seq<MethodInfo>, b: Binding, name: string)
    ensures |Candidates(ms, b, name)| == 1 <==> exists i :: BindsUniquely(ms, b, name, i)
    ensures forall i :: BindsUniquely(ms, b, name, i) ==> Candidates(ms, b, name) == [ms[i]]
  {
    if ms == [] {
      return;
    }
    var t := ms[1..];
    NoCandidates(t, b, name);
    OneCandidate(t, b, name);
    assert forall k :: 0 <= k < |t| ==> t[k] == ms[k + 1];
    if Binds(b, name, ms[0]) {
      // Unique in `ms` means: at index 0, with nothing in the tail.
      if NoneBinds(t, b, name) {
        forall j | 0 < j < |ms| ensures !Binds(b, name, ms[j]) {
          assert ms[j] == t[j - 1];
        }
        assert BindsUniquely(ms, b, name, 0);
      }
      forall i | BindsUniquely(ms, b, name, i)
        ensures Candidates(ms, b, name) == [ms[i]]
      {
        assert i == 0;
        forall k | 0 <= k < |t| ensures !Binds(b, name, t[k]) {
          assert Binds(b, name, ms[k + 1]) ==> k + 1 == 0;
        }
      }
    } else {
      assert Candidates(ms, b, name) == Candidates(t, b, name);
      forall i | BindsUniquely(ms, b, name, i) ensures BindsUniquely(t, b, name, i - 1) {
        assert i > 0;
        forall j | 0 <= j < |t| && Binds(b, name, t[j]) ensures j == i - 1 {
          assert Binds(b, name, ms[j + 1]);
        }
      }
      forall i | BindsUniquely(t, b, name, i) ensures BindsUniquely(ms, b, name, i + 1) {
        forall j | 0 <= j < |ms| && Binds(b, name, ms[j]) ensures j == i + 1 {
          assert j > 0;
          assert Binds(b, name, t[j - 1]);
        }
      }
    }
  }

  lemma ManyCandidates(ms: seq<MethodInfo>, b: Binding, name: string)
    ensures (!NoneBinds(ms, b, name) && !(exists i :: BindsUniquely(ms, b, name, i)))
            <==> BindsTwice(ms, b, name)
  {
    if !NoneBinds(ms, b, name) && !(exists i :: BindsUniquely(ms, b, name, i)) {
      var i :| 0 <= i < |ms| && Binds(b, name, ms[i]);
      assert !BindsUniquely(ms, b, name, i);
      var j :| 0 <= j < |ms| && Binds(b, name, ms[j]) && j != i;
      if i < j {
        assert Binds(b, name, ms[i]) && Binds(b, name, ms[j]);
      } else {
        assert Binds(b, name, ms[j]) && Binds(b, name, ms[i]);
      }
    }
  }

  /**
    `Type.GetMethod` over the methods `ms` of one type: `null` when nothing
    qualifies, the method when exactly one does, `AmbiguousMatchException`
    when two or more do.
  */
  function GetMethod(ms: seq<MethodInfo>, b: Binding, name: string): (r: Lookup)
    ensures r.NoMatch? <==> NoneBinds(ms, b, name)
    ensures r.Match? <==> exists i :: BindsUniquely(ms, b, name, i)
    ensures r.Match? ==> forall i :: BindsUniquely(ms, b, name, i) ==> r.found == ms[i]
    ensures r.Ambiguous? <==> BindsTwice(ms, b, name)
  {
    var cs := Candidates(ms, b, name);
    NoCandidates(ms, b, name);
    OneCandidate(ms, b, name);
    ManyCandidates(ms, b, name);
    if |cs| == 0 then NoMatch
    else if |cs| == 1 then Match(cs[0])
    else Ambiguous
  }

}
