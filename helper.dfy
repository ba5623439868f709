/**
 * The string tests the action runner uses to recognise built-in actions
 * (exec/helper.go): an action whose run string starts with `captainhook::`
 * in any letter case is internal, one that starts with `captainhook::logic`
 * is a logic condition, and the internal path is the part after `::`,
 * split on '.'.
 */
module ExecHelper {
  import opened Wrappers
  import opened Strings

  /** The lower-cased prefix that marks internal functionality. */
  const InternalPrefix: string := "captainhook::"

  /** The lower-cased prefix that marks the AND and OR conditions. */
  const LogicPrefix: string := "captainhook::logic"

  /** `isLogicCondition`: the first 18 characters lower-case to "captainhook::logic". */
  function IsLogicCondition(action: string): (logic: bool)
    ensures logic <==>
      |action| >= |LogicPrefix| && forall i :: 0 <= i < |LogicPrefix| ==> LowerChar(action[i]) == LogicPrefix[i]
  {
    LowerPrefixByCharacters(action, LogicPrefix);
    HasPrefix(ToLower(action), LogicPrefix)
  }

  /** `isInternalFunctionality`: the first 13 characters lower-case to "captainhook::". */
  function IsInternalFunctionality(action: string): (internal: bool)
    ensures internal <==>
      |action| >= |InternalPrefix| && forall i :: 0 <= i < |InternalPrefix| ==> LowerChar(action[i]) == InternalPrefix[i]
  {
    LowerPrefixByCharacters(action, InternalPrefix);
    HasPrefix(ToLower(action), InternalPrefix)
  }

  /**
   * Internal functionality in any letter case contains "::", first at index
   * 11: lower-casing keeps ':' and maps no other character to it.
   */
  lemma InternalHasSeparator(action: string)
    requires IsInternalFunctionality(action)
    ensures IndexOf(action, "::").Some? && IndexOf(action, "::").value == 11
  {
    assert LowerChar(action[11]) == ':' && LowerChar(action[12]) == ':';
    assert action[11..13] == "::";
    assert OccursAt(action, "::", 11);
    forall j | 0 <= j < 11
      ensures !OccursAt(action, "::", j)
    {
      OccursAtFirst(action, "::", j);
      assert LowerChar(action[j]) == InternalPrefix[j] != ':';
    }
  }

  /** Every logic condition is internal functionality. */
  lemma LogicIsInternal(action: string)
    ensures IsLogicCondition(action) ==> IsInternalFunctionality(action)
  {
    assert LogicPrefix == InternalPrefix + "logic";
    if IsLogicCondition(action) {
      HasPrefixOfLonger(ToLower(action), InternalPrefix, "logic");
    }
  }

  /** Both tests ignore letter case: an action and its lower-cased form get the same answers. */
  lemma TestsIgnoreCase(action: string)
    ensures IsInternalFunctionality(ToLower(action)) == IsInternalFunctionality(action)
    ensures IsLogicCondition(ToLower(action)) == IsLogicCondition(action)
  {
    ToLowerIdempotent(action);
  }

  /** An action that starts with `CaptainHook::` exactly as written contains "::". */
  lemma {:induction false} CasedPrefixHasSeparator(action: string, prefix: string)
    requires prefix == "CaptainHook::" || prefix == InternalPrefix
    requires HasPrefix(action, prefix)
    ensures IndexOf(action, "::").Some? && IndexOf(action, "::").value == 11
  {
    assert action[11..13] == prefix[11..13] == "::";
    assert OccursAt(action, "::", 11);
    forall j | 0 <= j < 11
      ensures !OccursAt(action, "::", j)
    {
      OccursAtFirst(action, "::", j);
      assert action[j] == prefix[j] != ':';
    }
  }

  /** The text after the first "::" and before the next one, or to the end when there is no next one. */
  function Segment(action: string): (segment: string)
    requires IndexOf(action, "::").Some?
    ensures var after := action[IndexOf(action, "::").value + 2..];
      IndexOf(after, "::").None? ==> segment == after
    ensures var after := action[IndexOf(action, "::").value + 2..];
      IndexOf(after, "::").Some? ==> segment == after[..IndexOf(after, "::").value]
  {
    var i := IndexOf(action, "::").value;
    var after := action[i + 2..];
    assert Split(action, "::") == [action[..i]] + Split(after, "::");
    Split(action, "::")[1]
  }

  /**
   * `splitInternalPath`: the segment after the first "::", split on '.'.
   * The source indexes the second piece of the split, so an action without
   * "::" is outside its domain.
   */
  function SplitInternalPath(action: string): (path: seq<string>)
    requires IndexOf(action, "::").Some?
    ensures |path| == Count(Segment(action), '.') + 1
    ensures Join(path, ".") == Segment(action)
    ensures forall k, j :: 0 <= k < |path| ==> !OccursAt(path[k], ".", j)
  {
    var actionPath := Split(action, "::")[1];
    SplitCount(actionPath, '.');
    JoinSplit(actionPath, ".");
    SplitPiecesAvoidSeparator(actionPath, ".");
    Split(actionPath, ".")
  }

  /** A string without the separator's first character has no occurrence of it. */
  lemma NoOccurrence(s: string, sep: string)
    requires |sep| > 0 && sep[0] !in s
    ensures IndexOf(s, sep).None?
  {
    forall j
      ensures !OccursAt(s, sep, j)
    {
      if 0 <= j && j + |sep| <= |s| {
        assert s[j..j + |sep|][0] == s[j] && s[j] in s;
      }
    }
  }

  /** An action that starts with `CaptainHook::`, as the documentation writes it, is internal functionality. */
  lemma CasedPrefixIsInternal(action: string)
    requires HasPrefix(action, "CaptainHook::")
    ensures IsInternalFunctionality(action)
  {
    forall i | 0 <= i < |InternalPrefix|
      ensures LowerChar(action[i]) == InternalPrefix[i]
    {
      assert action[i] == "CaptainHook::"[i];
    }
  }

  /** Two dot-free words joined by one '.' split back into the two words. */
  lemma {:induction false} SplitOnDot(group: string, name: string)
    requires '.' !in group && '.' !in name
    ensures Split(group + "." + name, ".") == [group, name]
  {
    var after := group + "." + name;
    assert OccursAt(after, ".", |group|);
    assert IndexOf(after, ".") == Some(|group|) by {
      forall j | 0 <= j < |group| ensures !OccursAt(after, ".", j) {
        assert after[j] == group[j];
      }
    }
    assert after[..|group|] == group && after[|group| + 1..] == name;
    NoOccurrence(name, ".");
  }

  /** Behind `CaptainHook::`, text without ':' is the whole segment. */
  lemma {:induction false} SegmentAfterPrefix(rest: string)
    requires ':' !in rest
    ensures var action := "CaptainHook::" + rest;
      IndexOf(action, "::").Some? && Segment(action) == rest
  {
    var action := "CaptainHook::" + rest;
    assert action[..13] == "CaptainHook::";
    CasedPrefixHasSeparator(action, "CaptainHook::");
    assert action[13..] == rest;
    NoOccurrence(rest, "::");
  }

  /**
   * The documented form `CaptainHook::<group>.<name>`, for instance
   * `CaptainHook::Branch.EnsureNaming`, is internal functionality and splits
   * into its group and its name.
   */
  lemma {:induction false} GroupAndName(group: string, name: string)
    requires ':' !in group && ':' !in name && '.' !in group && '.' !in name
    ensures var action := "CaptainHook::" + group + "." + name;
      IsInternalFunctionality(action) && IndexOf(action, "::").Some? &&
      SplitInternalPath(action) == [group, name]
  {
    var rest := group + "." + name;
    assert ':' !in rest by {
      forall k | 0 <= k < |rest| ensures rest[k] != ':' {
        if k < |group| {
          assert rest[k] == group[k];
        } else if k > |group| {
          assert rest[k] == name[k - |group| - 1];
        }
      }
    }
    var action := "CaptainHook::" + rest;
    assert action == "CaptainHook::" + group + "." + name;
    assert action[..13] == "CaptainHook::";
    CasedPrefixIsInternal(action);
    SegmentAfterPrefix(rest);
    SplitOnDot(group, name);
  }

  /** The example from the documentation of `splitInternalPath`. */
  lemma BranchEnsureNaming()
    ensures IsInternalFunctionality("CaptainHook::Branch.EnsureNaming")
    ensures IndexOf("CaptainHook::Branch.EnsureNaming", "::").Some?
    ensures SplitInternalPath("CaptainHook::Branch.EnsureNaming") == ["Branch", "EnsureNaming"]
  {
    assert "CaptainHook::Branch.EnsureNaming" == "CaptainHook::" + "Branch" + "." + "EnsureNaming";
    GroupAndName("Branch", "EnsureNaming");
  }
}
