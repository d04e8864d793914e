/** `unfold` (parser.go:115-118): `strings.Replace(text, "\r\n ", "", -1)`,
    which deletes every non-overlapping CRLF-space from left to right. */
module Folding {

  /** A fold, CRLF followed by a space, starts at index `i` of `s`. */
  predicate FoldAt(s: string, i: int)
  {
    0 <= i && i + 3 <= |s| && s[i] == '\r' && s[i + 1] == '\n' && s[i + 2] == ' '
  }

  /** Text with no CRLF-space anywhere in it. */
  predicate Unfolded(s: string)
  {
    forall i :: 0 <= i <= |s| - 3 ==> !FoldAt(s, i)
  }

  /** The scan `strings.Replace` performs: at each position either a whole
      fold is dropped or one rune is kept.  The result is never longer, and
      it is exactly as long only when there was nothing to delete. */
  function Unfold(s: string): (r: string)
    ensures |r| <= |s|
    ensures |r| == |s| <==> Unfolded(s)
    ensures Unfolded(s) ==> r == s
  {
    if |s| < 3 then s
    else if FoldAt(s, 0) then Unfold(s[3..])
    else
      var r := [s[0]] + Unfold(s[1..]);
      assert Unfolded(s) ==> Unfolded(s[1..]) by {
        if Unfolded(s) {
          forall i | 0 <= i <= |s[1..]| - 3 ensures !FoldAt(s[1..], i) {
            assert !FoldAt(s, i + 1);
          }
        }
      }
      assert Unfolded(s[1..]) ==> Unfolded(s) by {
        if Unfolded(s[1..]) {
          forall i | 1 <= i <= |s| - 3 ensures !FoldAt(s, i) {
            assert !FoldAt(s[1..], i - 1);
          }
        }
      }
      r
  }

  /** A prefix in which no fold starts comes through unchanged. */
  lemma {:induction false} UnfoldKeepsPrefix(a: string, b: string)
    requires forall i :: 0 <= i < |a| ==> !FoldAt(a + b, i)
    ensures Unfold(a + b) == a + Unfold(b)
    decreases |a|
  {
    if |a| > 0 {
      var s := a + b;
      assert s[1..] == a[1..] + b;
      forall i | 0 <= i < |a| - 1 ensures !FoldAt(a[1..] + b, i) {
        assert !FoldAt(s, i + 1);
      }
      UnfoldKeepsPrefix(a[1..], b);
      assert !FoldAt(s, 0);
      assert Unfold(s) == [s[0]] + Unfold(s[1..]);
      assert a == [a[0]] + a[1..];
    } else {
      assert a + b == b;
    }
  }

  /** Where no CR occurs, no fold can start. */
  lemma NoFoldWithoutCR(s: string, n: nat)
    requires n <= |s| && forall i :: 0 <= i < n ==> s[i] != '\r'
    ensures forall i :: 0 <= i < n ==> !FoldAt(s, i)
  {
  }

  /** The line-joining example: a folded SUMMARY becomes one line, the space
      after the CRLF going with it. */
  lemma JoinsFoldedLine()
    ensures Unfold("SUMMARY:Hello" + "\r\n World") == "SUMMARY:Hello" + "World"
  {
    var a, b, w := "SUMMARY:Hello", "\r\n World", "World";
    NoFoldWithoutCR(a + b, |a|);
    UnfoldKeepsPrefix(a, b);
    assert FoldAt(b, 0) && b[3..] == w;
    UnfoldKeepsPrefix(w, "");
    assert w + "" == w && Unfold("") == "";
  }

  /** Unfolding is not idempotent: a fold whose deletion brings a CRLF next to
      another space leaves a new fold behind. */
  lemma NotIdempotent()
    ensures Unfold("\r\n\r\n  ") == "\r\n "
    ensures Unfold(Unfold("\r\n\r\n  ")) == ""
  {
    var s := "\r\n\r\n  ";
    assert !FoldAt(s, 0) && !FoldAt(s[1..], 0);
    assert s[1..][1..] == "\r\n  ";
    assert FoldAt("\r\n  ", 0);
    assert "\r\n  "[3..] == " ";
    assert Unfold(s) == [s[0]] + ([s[1]] + Unfold("\r\n  "));
    assert FoldAt("\r\n ", 0);
    assert Unfold("\r\n ") == Unfold("");
  }

  /** Tabs are not folding whitespace here: a CRLF-tab stays. */
  lemma KeepsTabFolds()
    ensures Unfold("\r\n\t") == "\r\n\t"
  {
    assert Unfolded("\r\n\t");
  }
}
