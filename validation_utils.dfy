/** ValidationUtils: index-name syntax and the uniqueness of a batch's ids. */
module ValidationUtils {
  import opened Base
  import opened Exceptions

  const MaxIndexNameLength: nat := 48

  /** One character of the class [a-zA-Z0-9_]. */
  predicate IsNameChar(c: char) {
    'a' <= c <= 'z' || 'A' <= c <= 'Z' || '0' <= c <= '9' || c == '_'
  }

  /** Whole-string match of ^[a-zA-Z0-9_]+$, consuming one character at a time. */
  function MatchesNamePattern(s: string): bool {
    |s| > 0 && IsNameChar(s[0]) && (|s| == 1 || MatchesNamePattern(s[1..]))
  }

  lemma {:induction false} MatchesNamePatternIff(s: string)
    ensures MatchesNamePattern(s) <==> |s| > 0 && forall i :: 0 <= i < |s| ==> IsNameChar(s[i])
  {
    if |s| > 1 {
      MatchesNamePatternIff(s[1..]);
      assert forall i :: 1 <= i < |s| ==> s[i] == s[1..][i - 1];
    }
  }

  /** isValidIndexName: false for null or empty, false from 48 characters on,
      otherwise the whole-string pattern match. */
  function IsValidIndexName(name: Option<string>): (ok: bool)
    ensures ok <==>
      && name.Some?
      && 1 <= |name.value| < MaxIndexNameLength
      && forall i :: 0 <= i < |name.value| ==> IsNameChar(name.value[i])
  {
    match name
    case None => false
    case Some(s) =>
      if |s| == 0 then false
      else if |s| >= MaxIndexNameLength then false
      else MatchesNamePatternIff(s); MatchesNamePattern(s)
  }

  // ---------------------------------------------------------------------------
  // validateVectorIds

  const EmptyIdMessage: string := "All vectors must have a non-empty ID"

  predicate IsEmptyId(id: Option<string>) {
    id.None? || id.value == ""
  }

  /** The ids that occur at two different positions of the list. */
  function Duplicates(ids: seq<string>): set<string> {
    set i, j | 0 <= i < j < |ids| && ids[i] == ids[j] :: ids[i]
  }

  function Present(ids: seq<Option<string>>): (r: seq<string>)
    requires forall k :: 0 <= k < |ids| ==> ids[k].Some?
    ensures |r| == |ids| && forall k :: 0 <= k < |ids| ==> r[k] == ids[k].value
  {
    seq(|ids|, k requires 0 <= k < |ids| => ids[k].value)
  }

  /** What validateVectorIds does to a list: the empty-id error if any id is
      null or empty, else the duplicate error if some id repeats, else success. */
  function CheckIds(ids: seq<Option<string>>): Result<()> {
    if exists k :: 0 <= k < |ids| && IsEmptyId(ids[k]) then Err(IllegalArgument(EmptyIdMessage))
    else if Duplicates(Present(ids)) != {} then Err(DuplicateIds(Duplicates(Present(ids))))
    else Ok(())
  }

  lemma DuplicatesSnoc(s: seq<string>, x: string)
    ensures Duplicates(s + [x]) == Duplicates(s) + (if x in s then {x} else {})
  {
    var t := s + [x];
    forall y | y in Duplicates(t) ensures y in Duplicates(s) + (if x in s then {x} else {}) {
      var i, j :| 0 <= i < j < |t| && t[i] == t[j] && y == t[i];
      if j < |s| {
        assert y in Duplicates(s);
      } else {
        assert t[i] == s[i];
      }
    }
    forall y | y in Duplicates(s) ensures y in Duplicates(t) {
      var i, j :| 0 <= i < j < |s| && s[i] == s[j] && y == s[i];
      assert t[i] == t[j];
    }
    if x in s {
      var i :| 0 <= i < |s| && s[i] == x;
      assert t[i] == t[|s|];
    }
  }

  /** validateVectorIds: one pass that remembers the ids seen so far and the
      ones seen twice. The input list is a value and so is left unchanged. */
  method ValidateVectorIds(ids: seq<Option<string>>) returns (r: Result<()>)
    ensures r == CheckIds(ids)
  {
    var seenIds: set<string> := {};
    var duplicateIds: set<string> := {};
    var i := 0;
    while i < |ids|
      invariant 0 <= i <= |ids|
      invariant forall k :: 0 <= k < i ==> !IsEmptyId(ids[k])
      invariant seenIds == set k | 0 <= k < i :: ids[k].value
      invariant duplicateIds == Duplicates(Present(ids[..i]))
    {
      var id := ids[i];
      if id.None? || id.value == "" {
        return Err(IllegalArgument(EmptyIdMessage));
      }
      assert Present(ids[..i + 1]) == Present(ids[..i]) + [id.value];
      DuplicatesSnoc(Present(ids[..i]), id.value);
      assert id.value in seenIds <==> id.value in Present(ids[..i]);
      if id.value in seenIds {
        duplicateIds := duplicateIds + {id.value};
      } else {
        seenIds := seenIds + {id.value};
      }
      i := i + 1;
    }
    assert ids[..i] == ids;
    if duplicateIds != {} {
      return Err(DuplicateIds(duplicateIds));
    }
    return Ok(());
  }

  /** An id is reported as a duplicate exactly when it occurs at least twice. */
  lemma DuplicatesAreRepeats(ids: seq<string>, x: string)
    ensures x in Duplicates(ids) <==> multiset(ids)[x] >= 2
  {
    if x in Duplicates(ids) {
      var i, j :| 0 <= i < j < |ids| && ids[i] == ids[j] && x == ids[i];
      assert ids == ids[..i] + [ids[i]] + ids[i + 1..j] + [ids[j]] + ids[j + 1..];
      assert multiset(ids) == multiset(ids[..i]) + multiset{x} + multiset(ids[i + 1..j])
        + multiset{x} + multiset(ids[j + 1..]);
    } else {
      assert forall i, j :: 0 <= i < j < |ids| && ids[i] == x ==> ids[j] != x;
      AtMostOnce(ids, x);
    }
  }

  lemma {:induction false} AtMostOnce(ids: seq<string>, x: string)
    requires forall i, j :: 0 <= i < j < |ids| && ids[i] == x ==> ids[j] != x
    ensures multiset(ids)[x] <= 1
  {
    if ids != [] {
      var last := ids[|ids| - 1];
      var init := ids[..|ids| - 1];
      assert ids == init + [last];
      AtMostOnce(init, x);
      if last == x {
        assert forall i :: 0 <= i < |init| ==> init[i] != x by {
          forall i | 0 <= i < |init| ensures init[i] != x {
            assert ids[i] == init[i];
          }
        }
        assert x !in multiset(init);
      }
    }
  }

  /** validateVectorIds succeeds exactly when every id is non-null and
      non-empty and no two positions hold the same id. */
  lemma ValidateSucceedsIff(ids: seq<Option<string>>)
    ensures CheckIds(ids).Ok? <==>
      && (forall k :: 0 <= k < |ids| ==> ids[k].Some? && ids[k].value != "")
      && (forall i, j :: 0 <= i < j < |ids| ==> ids[i] != ids[j])
  {
    if forall k :: 0 <= k < |ids| ==> !IsEmptyId(ids[k]) {
      var p := Present(ids);
      if Duplicates(p) == {} {
        assert forall i, j :: 0 <= i < j < |p| && p[i] == p[j] ==> p[i] in Duplicates(p);
        assert forall k :: 0 <= k < |ids| ==> ids[k] == Some(p[k]);
      } else {
        var x :| x in Duplicates(p);
        var i, j :| 0 <= i < j < |p| && p[i] == p[j] && x == p[i];
        assert ids[i] == ids[j];
      }
    }
  }

  /** The empty-id error wins over duplicates, wherever the empty id stands. */
  lemma EmptyIdWins(ids: seq<Option<string>>, k: nat)
    requires k < |ids| && IsEmptyId(ids[k])
    ensures CheckIds(ids) == Err(IllegalArgument(EmptyIdMessage))
  {
  }
}
