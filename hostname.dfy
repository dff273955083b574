/**
 * The hostname guard of the icon service (`is_valid_hostname`).
 *
 * A hostname is rejected when it is longer than 255 characters; otherwise one
 * trailing `.` is dropped, the rest is split on `.` and every label must match
 * `(?!-)[A-Z\d-]{1,63}(?<!-)$` case-insensitively.
 */
module Hostname {

  /** Characters on which Python's IGNORECASE `[A-Z\d-]` and `$` behave as plain ASCII rules. */
  predicate InModelAlphabet(s: string) {
    forall i :: 0 <= i < |s| ==> s[i] as int < 128 && s[i] != '\n'
  }

  /**
   * Inputs the model describes: `hostname[-1]` fails on the empty string, and
   * below the length limit the characters are 7-bit ASCII without a line feed.
   */
  predicate InDomain(hostname: string) {
    0 < |hostname| && (|hostname| <= 255 ==> InModelAlphabet(hostname))
  }

  /** One character of `[A-Z\d-]` under IGNORECASE (ASCII). */
  predicate IsLabelChar(c: char) {
    'A' <= c <= 'Z' || 'a' <= c <= 'z' || '0' <= c <= '9' || c == '-'
  }

  /**
   * `(?!-)[A-Z\d-]{1,63}(?<!-)$` matched from the start of a label without a
   * line feed: the class run must reach the end, so it is the whole label.
   */
  predicate LabelMatches(segment: string) {
    && 1 <= |segment| <= 63
    && segment[0] != '-'
    && segment[|segment| - 1] != '-'
    && forall i :: 0 <= i < |segment| ==> IsLabelChar(segment[i])
  }

  /** `if hostname[-1] == ".": hostname = hostname[:-1]` */
  function StripTrailingDot(hostname: string): (t: string)
    requires 0 < |hostname|
    ensures hostname == (if hostname[|hostname| - 1] == '.' then t + "." else t)
  {
    if hostname[|hostname| - 1] == '.' then hostname[..|hostname| - 1] else hostname
  }

  /** Python's `s.split(".")`: never empty, empty pieces kept. */
  function Split(s: string): (labels: seq<string>)
    ensures |labels| >= 1
    decreases |s|
  {
    if |s| == 0 then [""]
    else if s[0] == '.' then [""] + Split(s[1..])
    else
      var rest := Split(s[1..]);
      [[s[0]] + rest[0]] + rest[1..]
  }

  /** `".".join(labels)`, the inverse of `Split`. */
  function JoinLabels(labels: seq<string>): string {
    if |labels| == 0 then ""
    else if |labels| == 1 then labels[0]
    else labels[0] + "." + JoinLabels(labels[1..])
  }

  predicate AllLabelsMatch(labels: seq<string>) {
    forall j :: 0 <= j < |labels| ==> LabelMatches(labels[j])
  }

  /** `is_valid_hostname`. */
  function IsValidHostname(hostname: string): (valid: bool)
    requires InDomain(hostname)
    ensures |hostname| > 255 ==> !valid
  {
    if |hostname| > 255 then false
    else AllLabelsMatch(Split(StripTrailingDot(hostname)))
  }

  // ---------------------------------------------------------------------------
  // Split and JoinLabels are inverse to each other.

  lemma {:induction false} SplitJoin(s: string)
    ensures JoinLabels(Split(s)) == s
    decreases |s|
  {
    if |s| == 0 {
    } else if s[0] == '.' {
      SplitJoin(s[1..]);
      assert Split(s) == [""] + Split(s[1..]);
      assert ([""] + Split(s[1..]))[1..] == Split(s[1..]);
    } else {
      var rest := Split(s[1..]);
      SplitJoin(s[1..]);
      if |rest| == 1 {
        assert JoinLabels(Split(s)) == [s[0]] + rest[0];
      } else {
        var out := Split(s);
        assert out[1..] == rest[1..];
        calc {
          JoinLabels(out);
          ([s[0]] + rest[0]) + "." + JoinLabels(rest[1..]);
          [s[0]] + (rest[0] + "." + JoinLabels(rest[1..]));
          [s[0]] + JoinLabels(rest);
          [s[0]] + s[1..];
        }
      }
    }
  }

  /** A string without a dot is a single label. */
  lemma {:induction false} SplitWithoutDot(s: string)
    requires '.' !in s
    ensures Split(s) == [s]
    decreases |s|
  {
    if |s| > 0 {
      assert '.' !in s[1..] by {
        forall c | c in s[1..] ensures c in s { }
      }
      SplitWithoutDot(s[1..]);
      assert s[0] != '.';
      assert Split(s) == [[s[0]] + s[1..]];
      assert [s[0]] + s[1..] == s;
    }
  }

  /** Splitting a string that starts with a dot. */
  lemma SplitDotFirst(rest: string)
    ensures Split("." + rest) == [""] + Split(rest)
  {
  }

  /** Splitting a string that starts with a label character. */
  lemma SplitCharFirst(c: char, rest: string)
    requires c != '.'
    ensures Split([c] + rest) == [[c] + Split(rest)[0]] + Split(rest)[1..]
  {
  }

  /** Splitting `a + "." + b` splits `a` and `b` separately. */
  lemma {:induction false} SplitAroundDot(a: string, b: string)
    ensures Split(a + "." + b) == Split(a) + Split(b)
    decreases |a|
  {
    if |a| == 0 {
      assert a + "." + b == "." + b;
      SplitDotFirst(b);
    } else {
      var c, rest := a[0], a[1..];
      assert a == [c] + rest;
      assert a + "." + b == [c] + (rest + "." + b);
      SplitAroundDot(rest, b);
      if c == '.' {
        SplitDotFirst(rest + "." + b);
        SplitDotFirst(rest);
      } else {
        SplitCharFirst(c, rest + "." + b);
        SplitCharFirst(c, rest);
      }
    }
  }

  /** Splitting at a dot splits the pieces. */
  lemma SplitAtDot(s: string, i: nat)
    requires i < |s| && s[i] == '.'
    ensures Split(s) == Split(s[..i]) + Split(s[i + 1..])
  {
    assert s == s[..i] + "." + s[i + 1..];
    SplitAroundDot(s[..i], s[i + 1..]);
  }

  /** Joining labels that hold no dot and splitting again gives the labels back. */
  lemma {:induction false} JoinSplit(labels: seq<string>)
    requires |labels| >= 1
    requires forall j :: 0 <= j < |labels| ==> '.' !in labels[j]
    ensures Split(JoinLabels(labels)) == labels
    decreases |labels|
  {
    if |labels| == 1 {
      SplitWithoutDot(labels[0]);
    } else {
      var head, rest := labels[0], labels[1..];
      var tail := JoinLabels(rest);
      var s := head + "." + tail;
      assert JoinLabels(labels) == s;
      assert forall j :: 0 <= j < |rest| ==> rest[j] == labels[j + 1];
      JoinSplit(rest);
      assert s[|head|] == '.';
      SplitAtDot(s, |head|);
      assert s[..|head|] == head;
      assert s[|head| + 1..] == tail;
      SplitWithoutDot(head);
      assert labels == [head] + rest;
    }
  }

  // ---------------------------------------------------------------------------
  // What validity means.

  /** `t` is the dot-join of one or more labels each matching the label rule. */
  ghost predicate IsJoinOfValidLabels(labels: seq<string>, t: string) {
    |labels| >= 1 && AllLabelsMatch(labels) && JoinLabels(labels) == t
  }

  lemma LabelMatchHasNoDot(segment: string)
    requires LabelMatches(segment)
    ensures '.' !in segment
  {
  }

  /**
   * A hostname is valid exactly when it has at most 255 characters and, with
   * one trailing dot removed, it is a dot-separated list of one or more labels,
   * each 1-63 letters, digits or hyphens, starting and ending with no hyphen.
   */
  lemma ValidIffJoinOfLabels(hostname: string)
    requires InDomain(hostname)
    ensures IsValidHostname(hostname) <==>
      |hostname| <= 255 && exists labels :: IsJoinOfValidLabels(labels, StripTrailingDot(hostname))
  {
    var t := StripTrailingDot(hostname);
    if IsValidHostname(hostname) {
      SplitJoin(t);
      assert IsJoinOfValidLabels(Split(t), t);
    }
    if |hostname| <= 255 && exists labels :: IsJoinOfValidLabels(labels, t) {
      var labels :| IsJoinOfValidLabels(labels, t);
      forall j | 0 <= j < |labels| ensures '.' !in labels[j] {
        LabelMatchHasNoDot(labels[j]);
      }
      JoinSplit(labels);
    }
  }

  /** A join ends with the last character of its last label. */
  lemma {:induction false} JoinEndsWithLastLabel(labels: seq<string>)
    requires |labels| >= 1 && |labels[|labels| - 1]| > 0
    ensures var t, last := JoinLabels(labels), labels[|labels| - 1];
      |t| > 0 && t[|t| - 1] == last[|last| - 1]
    decreases |labels|
  {
    if |labels| > 1 {
      JoinEndsWithLastLabel(labels[1..]);
    }
  }

  /** Valid labels are ASCII and the join adds only dots. */
  lemma {:induction false} JoinOfLabelsInAlphabet(labels: seq<string>)
    requires AllLabelsMatch(labels)
    ensures InModelAlphabet(JoinLabels(labels))
    decreases |labels|
  {
    if |labels| > 1 {
      assert LabelMatches(labels[0]);
      JoinOfLabelsInAlphabet(labels[1..]);
    } else if |labels| == 1 {
      assert LabelMatches(labels[0]);
    }
  }

  /** Every non-empty dot-join of valid labels, with or without one trailing dot, is accepted. */
  lemma JoinOfValidLabelsAccepted(labels: seq<string>)
    requires |labels| >= 1 && AllLabelsMatch(labels)
    requires |JoinLabels(labels)| < 255
    ensures InDomain(JoinLabels(labels) + ".") && InDomain(JoinLabels(labels))
    ensures IsValidHostname(JoinLabels(labels) + ".")
    ensures 0 < |JoinLabels(labels)| && IsValidHostname(JoinLabels(labels))
  {
    var t := JoinLabels(labels);
    JoinOfLabelsInAlphabet(labels);
    forall j | 0 <= j < |labels| ensures '.' !in labels[j] {
      LabelMatchHasNoDot(labels[j]);
    }
    JoinSplit(labels);
    JoinEndsWithLastLabel(labels);
    assert StripTrailingDot(t) == t;
    var h := t + ".";
    assert InModelAlphabet(h);
    assert h[..|h| - 1] == t;
  }

  // ---------------------------------------------------------------------------
  // The trailing dot and the length limit.

  /** One trailing dot is ignored. */
  lemma TrailingDotIgnored(h: string)
    requires 0 < |h| < 255 && h[|h| - 1] != '.'
    requires InModelAlphabet(h)
    ensures InDomain(h + ".")
    ensures IsValidHostname(h + ".") == IsValidHostname(h)
  {
  }

  /** After removing one dot the remaining trailing dot leaves an empty last label. */
  lemma {:induction false} TwoTrailingDotsRejected(h: string)
    requires InDomain(h + "..")
    ensures !IsValidHostname(h + "..")
  {
    var s := h + "..";
    if |s| <= 255 {
      var t := StripTrailingDot(s);
      assert t == h + ".";
      SplitAtDot(t, |h|);
      assert t[|h| + 1..] == "";
      var labels := Split(t);
      assert labels[|labels| - 1] == "";
    }
  }

  /** The length check comes before the strip: 256 characters ending in `.` are rejected. */
  lemma LengthCheckedBeforeStrip(h: string)
    requires |h| == 256 && h[255] == '.'
    ensures InDomain(h) && !IsValidHostname(h)
    ensures |StripTrailingDot(h)| == 255
  {
  }

  // ---------------------------------------------------------------------------
  // Local defects that make a hostname invalid.

  /** A leading dot (after the strip) makes an empty first label. */
  lemma LeadingDotRejected(h: string)
    requires InDomain(h) && |h| <= 255
    requires var t := StripTrailingDot(h); 0 < |t| && t[0] == '.'
    ensures !IsValidHostname(h)
  {
    var t := StripTrailingDot(h);
    assert Split(t)[0] == "";
  }

  /** Two adjacent dots make an empty label. */
  lemma DoubleDotRejected(h: string, i: nat)
    requires InDomain(h) && |h| <= 255
    requires var t := StripTrailingDot(h); i + 1 < |t| && t[i] == '.' && t[i + 1] == '.'
    ensures !IsValidHostname(h)
  {
    var t := StripTrailingDot(h);
    SplitAtDot(t, i);
    var right := t[i + 1..];
    assert right[0] == '.';
    var labels := Split(t);
    assert labels[|Split(t[..i])|] == Split(right)[0] == "";
  }

  /**
   * Where a non-dot character lands: in piece `j` of the split at offset `k`,
   * first in its piece exactly when a dot (or nothing) precedes it, last
   * exactly when a dot (or nothing) follows it.
   */
  lemma {:induction false} PieceOf(s: string, i: nat) returns (j: nat, k: nat)
    requires i < |s| && s[i] != '.'
    ensures j < |Split(s)| && k < |Split(s)[j]| && Split(s)[j][k] == s[i]
    ensures j == 0 ==> k == i
    ensures i == 0 ==> j == 0
    ensures k == 0 <==> (i == 0 || s[i - 1] == '.')
    ensures k == |Split(s)[j]| - 1 <==> (i == |s| - 1 || s[i + 1] == '.')
    decreases i
  {
    var c, tail := s[0], s[1..];
    assert s == [c] + tail;
    if i == 0 {
      SplitCharFirst(c, tail);
      j, k := 0, 0;
      if |tail| > 0 && tail[0] != '.' {
        SplitCharFirst(tail[0], tail[1..]);
        assert tail == [tail[0]] + tail[1..];
      }
    } else {
      var j', k' := PieceOf(tail, i - 1);
      if c == '.' {
        SplitDotFirst(tail);
        j, k := j' + 1, k';
      } else {
        SplitCharFirst(c, tail);
        if j' == 0 {
          j, k := 0, k' + 1;
        } else {
          j, k := j', k';
        }
      }
    }
  }

  /** A character other than a letter, digit, hyphen or dot is rejected. */
  lemma BadCharacterRejected(h: string, i: nat)
    requires InDomain(h)
    requires var t := StripTrailingDot(h); i < |t| && t[i] != '.' && !IsLabelChar(t[i])
    ensures !IsValidHostname(h)
  {
    var t := StripTrailingDot(h);
    var j, k := PieceOf(t, i);
  }

  /** A hyphen at the start or the end of a label is rejected. */
  lemma HyphenAtLabelEdgeRejected(h: string, i: nat)
    requires InDomain(h)
    requires var t := StripTrailingDot(h);
      i < |t| && t[i] == '-' && (i == 0 || t[i - 1] == '.' || i == |t| - 1 || t[i + 1] == '.')
    ensures !IsValidHostname(h)
  {
    var t := StripTrailingDot(h);
    var j, k := PieceOf(t, i);
  }
}
