// Node addresses as the controller accepts them: `_normalize_node_address` of controller/state_store.py
// and controller/ingress_manager.py, for ASCII text.

module NodeAddress {
  import opened Models

  predicate IsSpace(c: char)
  {
    c == ' ' || '\t' <= c <= '\r' || 28 <= c as int <= 31
  }

  function StripLeft(s: string): (r: string)
    ensures r == [] || !IsSpace(r[0])
    ensures |r| <= |s|
  {
    if s == [] || !IsSpace(s[0]) then s else StripLeft(s[1..])
  }

  function StripRight(s: string): (r: string)
    ensures r == [] || !IsSpace(r[|r| - 1])
    ensures r <= s
  {
    if s == [] || !IsSpace(s[|s| - 1]) then s else StripRight(s[..|s| - 1])
  }

  function Strip(s: string): string { StripRight(StripLeft(s)) }

  function LowerChar(c: char): char
  {
    if 'A' <= c <= 'Z' then c + 32 as char else c
  }

  function Lower(s: string): string
  {
    seq(|s|, i requires 0 <= i < |s| => LowerChar(s[i]))
  }

  const UNKNOWN := "unknown"

  /** A usable address, or none for missing, blank and "unknown" input. */
  function Normalize(value: Option<string>): Option<string>
  {
    if value.None? then None
    else
      var stripped := Strip(value.value);
      if stripped == [] || Lower(stripped) == UNKNOWN then None else Some(stripped)
  }

  /** `_first_valid_node_address` of two candidates. */
  function FirstValid(first: string, second: string): Option<string>
  {
    var n := Normalize(Some(first));
    if n.Some? then n else Normalize(Some(second))
  }

  /** Normalising a stored address again changes nothing, so an accepted address survives later heartbeats. */
  lemma NormalizeIdempotent(value: Option<string>)
    ensures Normalize(value).Some? ==> Normalize(Normalize(value)) == Normalize(value)
  {
    if value.Some? {
      var left := StripLeft(value.value);
      var stripped := StripRight(left);
      if stripped != [] {
        assert stripped[0] == left[0];
      }
    }
  }

  // What an accepted address is.

  predicate Blank(c: char) { c as int in {9, 10, 11, 12, 13, 28, 29, 30, 31, 32} }

  /** r is v without the blanks at its two ends. */
  ghost predicate Trimmed(v: string, r: string)
  {
    && r != [] && !Blank(r[0]) && !Blank(r[|r| - 1])
    && exists i: nat, j: nat :: CutAt(v, r, i, j)
  }

  ghost predicate CutAt(v: string, r: string, i: nat, j: nat)
  {
    && i <= j <= |v| && v[i..j] == r
    && (forall k :: 0 <= k < i ==> Blank(v[k])) && (forall k :: j <= k < |v| ==> Blank(v[k]))
  }

  predicate ReadsUnknown(r: string)
  {
    |r| == 7 && forall k :: 0 <= k < 7 ==> r[k] == "unknown"[k] || r[k] == "UNKNOWN"[k]
  }

  /** The normalised address is the value without the blanks at its ends, unless that is empty or reads "unknown" in any
      mixture of cases. */
  lemma NormalizeMeaning(v: string, r: string)
    ensures Normalize(Some(v)) == Some(r) <==> Trimmed(v, r) && !ReadsUnknown(r)
  {
    var s := Strip(v);
    var i, j := StripCuts(v);
    LowerIsUnknown(s);
    if s == [] {
      forall q, a: nat, b: nat | CutAt(v, q, a, b) && q != [] ensures Blank(q[0]) { assert q[0] == v[a]; }
    } else {
      assert Trimmed(v, s);
      if Trimmed(v, r) {
        var a: nat, b: nat :| CutAt(v, r, a, b);
        assert r[0] == v[a] && r[|r| - 1] == v[b - 1] && s[0] == v[i] && s[|s| - 1] == v[j - 1];
        assert a == i && b == j;
      }
    }
  }

  lemma StripCuts(v: string) returns (i: nat, j: nat)
    ensures CutAt(v, Strip(v), i, j)
    ensures Strip(v) == [] ==> forall k :: 0 <= k < |v| ==> Blank(v[k])
    ensures var s := Strip(v); s != [] ==> !Blank(s[0]) && !Blank(s[|s| - 1])
  {
    var left := StripLeft(v);
    i := LeftCut(v);
    RightCut(left);
    j := i + |StripRight(left)|;
    assert v[i..j] == left[..j - i];
    forall k | j <= k < |v| ensures Blank(v[k]) { assert v[k] == left[k - i]; }
    if StripRight(left) != [] { assert StripRight(left)[0] == left[0]; }
  }

  lemma {:induction false} LeftCut(v: string) returns (i: nat)
    ensures i <= |v| && StripLeft(v) == v[i..] && forall k :: 0 <= k < i ==> Blank(v[k])
  {
    if v == [] || !IsSpace(v[0]) {
      i := 0;
    } else {
      var k := LeftCut(v[1..]);
      i := k + 1;
      forall m | 0 <= m < i ensures Blank(v[m]) { if m > 0 { assert v[m] == v[1..][m - 1]; } }
    }
  }

  lemma {:induction false} RightCut(v: string)
    ensures forall k :: |StripRight(v)| <= k < |v| ==> Blank(v[k])
  {
    if v != [] && IsSpace(v[|v| - 1]) {
      RightCut(v[..|v| - 1]);
    }
  }

  lemma LowerIsUnknown(r: string)
    ensures Lower(r) == UNKNOWN <==> ReadsUnknown(r)
  {
    if |r| == 7 {
      assert forall k :: 0 <= k < 7 ==>
        (Lower(r)[k] == UNKNOWN[k] <==> r[k] == "unknown"[k] || r[k] == "UNKNOWN"[k]);
    }
  }
}
