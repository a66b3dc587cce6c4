/**
 * Parsing and validation of the `GroupID: <id>` message a curator sends in a
 * private chat to choose the group that later uploads go to
 * (`receive_group_id`, main.py).
 */
module GroupIds {
  import opened Wrappers
  import opened Text

  /** The marker that the message filter looks for and that parsing removes. */
  const Marker := "GroupID:"

  /** The candidate id: every occurrence of the marker removed, then surrounding whitespace. */
  function Candidate(text: string): string
  {
    Strip(RemoveAll(text, Marker))
  }

  /** The accepted shape, stated directly: some run of `-` (possibly none)
      followed by one or more decimal digits, and nothing else. */
  ghost predicate WellFormed(g: string)
  {
    exists k :: 0 <= k < |g| && (forall i :: 0 <= i < k ==> g[i] == '-') && IsDigits(g[k..])
  }

  /** `g.lstrip("-").isdigit()` holds exactly for the well-formed ids. */
  lemma {:induction false} DashDigits(g: string)
    ensures IsDigits(LStrip(g, '-')) <==> WellFormed(g)
  {
    var r := LStrip(g, '-');
    var k := |g| - |r|;
    if IsDigits(r) {
      assert g[k..] == r;
    }
    if WellFormed(g) {
      var j :| 0 <= j < |g| && (forall i :: 0 <= i < j ==> g[i] == '-') && IsDigits(g[j..]);
      assert IsDigit(g[j]) by { assert g[j..][0] == g[j]; }
      assert k <= j;
      assert r[0] == g[k];
      assert k == j;
    }
  }

  /** The handler's decision: the trimmed candidate is stored as it is
      (leading `-` included) exactly when it is well formed. */
  function ParseGroupId(text: string): (r: Option<string>)
    ensures r.Some? <==> WellFormed(Candidate(text))
    ensures r.Some? ==> r.value == Candidate(text)
  {
    var g := Candidate(text);
    DashDigits(g);
    if IsDigits(LStrip(g, '-')) then Some(g) else None
  }

  /** The candidate behind `GroupID:`, some spaces and an id that holds
      neither the marker's first letter nor whitespace at its ends. */
  lemma CandidateOf(pre: string, g: string)
    requires forall k :: 0 <= k < |pre| ==> IsSpace(pre[k])
    requires 'G' !in pre && 'G' !in g
    requires g != [] ==> !IsSpace(g[0]) && !IsSpace(g[|g| - 1])
    ensures Candidate(Marker + (pre + g)) == g
  {
    RemoveAllFront(Marker, pre + g);
    RemoveAllAbsent(pre + g, Marker);
    StripAfterSpaces(pre, g);
  }

  /** What the handler decides for `GroupID:`, some spaces and such an id. */
  lemma ParseOf(pre: string, g: string)
    requires forall k :: 0 <= k < |pre| ==> IsSpace(pre[k])
    requires 'G' !in pre && 'G' !in g
    requires g != [] ==> !IsSpace(g[0]) && !IsSpace(g[|g| - 1])
    ensures ParseGroupId(Marker + (pre + g)) == if WellFormed(g) then Some(g) else None
  {
    CandidateOf(pre, g);
  }

  /** Minus signs and then digits are well formed. */
  lemma SignedDigitsWellFormed(dashes: string, d: string)
    requires forall k :: 0 <= k < |dashes| ==> dashes[k] == '-'
    requires IsDigits(d)
    ensures WellFormed(dashes + d)
  {
    var g := dashes + d;
    assert g[|dashes|..] == d;
    assert forall i :: 0 <= i < |dashes| ==> g[i] == '-';
  }

  /** A run of minus signs (possibly none) and then decimal digits is accepted
      and stored with its signs: `123`, `-123` and `--5` alike. */
  lemma AcceptsSignedDigits(pre: string, dashes: string, d: string)
    requires forall k :: 0 <= k < |pre| ==> IsSpace(pre[k])
    requires forall k :: 0 <= k < |dashes| ==> dashes[k] == '-'
    requires IsDigits(d)
    ensures ParseGroupId(Marker + (pre + (dashes + d))) == Some(dashes + d)
  {
    var g := dashes + d;
    assert forall k :: 0 <= k < |g| ==> g[k] == '-' || IsDigit(g[k]);
    assert g[|g| - 1] == d[|d| - 1];
    SignedDigitsWellFormed(dashes, d);
    ParseOf(pre, g);
  }

  /** Nothing but whitespace after the marker is rejected. */
  lemma RejectsBlank(pre: string)
    requires forall k :: 0 <= k < |pre| ==> IsSpace(pre[k])
    requires 'G' !in pre
    ensures ParseGroupId(Marker + pre) == None
  {
    assert pre + "" == pre;
    CandidateOf(pre, "");
    assert !WellFormed("");
  }

  /** Minus signs with no digit after them (`-`, `--`) are rejected. */
  lemma RejectsDashesOnly(pre: string, dashes: string)
    requires forall k :: 0 <= k < |pre| ==> IsSpace(pre[k])
    requires 'G' !in pre
    requires dashes != [] && forall k :: 0 <= k < |dashes| ==> dashes[k] == '-'
    ensures ParseGroupId(Marker + (pre + dashes)) == None
  {
    ParseOf(pre, dashes);
  }

  /** An id holding any character other than a minus sign or a digit (`abc`,
      `12a`, `1-2`, an inner space) is rejected. */
  lemma RejectsOtherCharacters(pre: string, g: string, i: nat)
    requires forall k :: 0 <= k < |pre| ==> IsSpace(pre[k])
    requires 'G' !in pre && 'G' !in g
    requires g != [] ==> !IsSpace(g[0]) && !IsSpace(g[|g| - 1])
    requires i < |g| && !IsDigit(g[i]) && (g[i] == '-' ==> exists j :: 0 <= j < i && g[j] != '-')
    ensures ParseGroupId(Marker + (pre + g)) == None
  {
    ParseOf(pre, g);
  }

  /** Every chat can be bound: `GroupID:` followed by `str(chat_id)` is
      accepted and stores exactly `str(chat_id)`, the folder name the group's
      own commands read. */
  lemma {:induction false} EveryChatIdAccepted(n: int)
    ensures ParseGroupId(Marker + IntString(n)) == Some(IntString(n))
  {
    var s := IntString(n);
    if n < 0 {
      assert s == "-" + NatString(-n);
      AcceptsSignedDigits("", "-", NatString(-n));
    } else {
      assert s == "" + NatString(n);
      AcceptsSignedDigits("", "", NatString(n));
    }
    assert "" + s == s;
  }

  /** `str(n)` has at most one minus sign and no leading zero. */
  lemma {:induction false} IntStringShape(n: int, d: string)
    requires IsDigits(d)
    ensures IntString(n) != "--" + d && IntString(n) != "0" + d
  {
    var s := IntString(n);
    if n < 0 {
      assert IsDigit(s[1..][0]);
      assert ("--" + d)[1] == '-';
    } else {
      assert ("0" + d)[0] == '0';
      assert |"0" + d| > 1;
    }
  }

  /** The check is looser than the ids chats have: `--5` is accepted and
      stored, although `str(chat_id)` never produces it, so uploads bound to
      it land in a folder that no group's commands read. */
  lemma AcceptsDoubleSign(d: string)
    requires IsDigits(d)
    ensures ParseGroupId(Marker + ("--" + d)) == Some("--" + d)
    ensures forall n :: IntString(n) != "--" + d
  {
    AcceptsSignedDigits("", "--", d);
    assert "" + ("--" + d) == "--" + d;
    forall n: int ensures IntString(n) != "--" + d {
      IntStringShape(n, d);
    }
  }

  /** Likewise `007`: accepted, but never the `str(chat_id)` of a chat. */
  lemma AcceptsLeadingZero(d: string)
    requires IsDigits(d)
    ensures ParseGroupId(Marker + ("0" + d)) == Some("0" + d)
    ensures forall n :: IntString(n) != "0" + d
  {
    assert IsDigits("0" + d);
    AcceptsSignedDigits("", "", "0" + d);
    assert "" + ("" + ("0" + d)) == "0" + d;
    forall n: int ensures IntString(n) != "0" + d {
      IntStringShape(n, d);
    }
  }

  /** The marker is removed wherever it occurs, not only at the front:
      `GroupID: 12GroupID:3` is decided as ` 123` is. */
  lemma MarkerRemovedEverywhere(x: string, y: string)
    requires 'G' !in x && 'G' !in y
    ensures ParseGroupId(Marker + x + Marker + y) == ParseGroupId(x + y)
  {
    assert Marker + x + Marker + y == Marker + (x + (Marker + y));
    RemoveAllFront(Marker, x + (Marker + y));
    RemoveAllSkip(x, Marker + y, Marker);
    RemoveAllFront(Marker, y);
    RemoveAllAbsent(y, Marker);
    RemoveAllAbsent(x + y, Marker);
  }
}
