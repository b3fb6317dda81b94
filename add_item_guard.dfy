/**
 * The check the add-item form makes before it calls `addItem`: the name,
 * trimmed of white space, must not be empty and the quantity must be
 * positive. The form passes the trimmed name on.
 */
module AddItemGuard {

  /** The characters `String.prototype.trim` removes: white space and line terminators. */
  predicate IsTrimSpace(ch: char) {
    || ('\t' <= ch <= '\r') || ch == ' ' || ch == '\U{00A0}' || ch == '\U{1680}'
    || ('\U{2000}' <= ch <= '\U{200A}') || ('\U{2028}' <= ch <= '\U{2029}')
    || ch == '\U{202F}' || ch == '\U{205F}' || ch == '\U{3000}' || ch == '\U{FEFF}'
  }

  /** `s` with its leading white space removed. */
  function TrimStart(s: string): (r: string)
    ensures |r| <= |s| && r == s[|s| - |r|..]
    ensures forall k :: 0 <= k < |s| - |r| ==> IsTrimSpace(s[k])
    ensures r != [] ==> !IsTrimSpace(r[0])
  {
    if s != [] && IsTrimSpace(s[0]) then TrimStart(s[1..]) else s
  }

  /** `s` with its trailing white space removed. */
  function TrimEnd(s: string): (r: string)
    ensures |r| <= |s| && r == s[..|r|]
    ensures forall k :: |r| <= k < |s| ==> IsTrimSpace(s[k])
    ensures r != [] ==> !IsTrimSpace(r[|r| - 1])
  {
    if s != [] && IsTrimSpace(s[|s| - 1]) then TrimEnd(s[..|s| - 1]) else s
  }

  /**
   * `s.trim()`: the infix of `s` left after dropping white space at both
   * ends; it is empty exactly when `s` is all white space.
   */
  function Trim(s: string): (r: string)
    ensures var i := |s| - |TrimStart(s)|;
      && i + |r| <= |s| && r == s[i..i + |r|]
      && (forall k :: 0 <= k < i ==> IsTrimSpace(s[k]))
      && (forall k :: i + |r| <= k < |s| ==> IsTrimSpace(s[k]))
    ensures r != [] ==> !IsTrimSpace(r[0]) && !IsTrimSpace(r[|r| - 1])
    ensures r == [] <==> forall k :: 0 <= k < |s| ==> IsTrimSpace(s[k])
  {
    var t := TrimStart(s);
    var r := TrimEnd(t);
    TrimParts(s, t, r);
    r
  }

  /** The facts `Trim` promises, from those of its two halves. */
  lemma TrimParts(s: string, t: string, r: string)
    requires t == TrimStart(s) && r == TrimEnd(t)
    ensures var i := |s| - |t|;
      && i + |r| <= |s| && r == s[i..i + |r|]
      && (forall k :: 0 <= k < i ==> IsTrimSpace(s[k]))
      && (forall k :: i + |r| <= k < |s| ==> IsTrimSpace(s[k]))
    ensures r == [] <==> forall k :: 0 <= k < |s| ==> IsTrimSpace(s[k])
  {
    var i := |s| - |t|;
    TrailingSpaces(s, t, r);
    if r != [] {
      assert s[i] == r[0];
      assert !IsTrimSpace(s[i]);
    } else {
      forall k | 0 <= k < |s| ensures IsTrimSpace(s[k]) {
        if k < i {
          assert IsTrimSpace(s[k]);
        } else {
          assert i + |r| <= k;
        }
      }
    }
  }

  /** The white space `TrimEnd` drops from the suffix `t` is white space of `s`. */
  lemma TrailingSpaces(s: string, t: string, r: string)
    requires |t| <= |s| && t == s[|s| - |t|..]
    requires |r| <= |t| && r == t[..|r|]
    requires forall k :: |r| <= k < |t| ==> IsTrimSpace(t[k])
    ensures var i := |s| - |t|; r == s[i..i + |r|]
    ensures forall k :: |s| - |t| + |r| <= k < |s| ==> IsTrimSpace(s[k])
  {
    var i := |s| - |t|;
    forall k | i + |r| <= k < |s| ensures IsTrimSpace(s[k]) {
      assert s[k] == t[k - i];
    }
  }

  /** Trimming twice is trimming once. */
  lemma TrimIdempotent(s: string)
    ensures Trim(Trim(s)) == Trim(s)
  {
    var r := Trim(s);
    assert TrimStart(r) == r;
    assert TrimEnd(r) == r;
  }

  /** A name that starts with a visible character survives trimming. */
  lemma VisibleNamePassesTrim(s: string)
    requires s != [] && !IsTrimSpace(s[0])
    ensures Trim(s) != []
  {
  }

  /**
   * The form's guard on the raw name and the parsed quantity: the name has a
   * visible character and the quantity is positive.
   */
  predicate AddGuard(name: string, quantity: real): (ok: bool)
    ensures ok <==> (exists k :: 0 <= k < |name| && !IsTrimSpace(name[k])) && quantity > 0.0
  {
    Trim(name) != [] && quantity > 0.0
  }

  /**
   * What the form passes to `addItem` (the trimmed name) satisfies the guard
   * again: the guard is a property of the arguments `addItem` receives.
   */
  lemma TrimmedInputPassesGuard(name: string, quantity: real)
    requires AddGuard(name, quantity)
    ensures AddGuard(Trim(name), quantity)
    ensures |Trim(name)| > 0
  {
    TrimIdempotent(name);
  }
}
