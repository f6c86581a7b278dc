/** Values as the browser clients and the Node server see them: strings of
    UTF-16 code units, nullable fields and their truthiness, the built-in
    `<` on strings, and the one thing the model keeps of a PeerJS call. */
module JsCore {

  /** One UTF-16 code unit; a JavaScript string is a sequence of them. */
  newtype CodeUnit = c: int | 0 <= c < 0x1_0000

  type JsString = seq<CodeUnit>

  /** A field that may be `null` or `undefined` (both are `None`). */
  datatype Option<+T> = None | Some(value: T)

  /** JavaScript truthiness of a nullable string: `null`, `undefined` and `""` are falsy. */
  predicate Truthy(s: Option<JsString>) {
    s.Some? && s.value != []
  }

  /** A PeerJS media connection; the model keeps only `call.peer`, the remote PeerJS id. */
  datatype MediaCall = MediaCall(peer: JsString)

  /** Regrouping an appended log. */
  lemma AppendAssociative<T>(x: seq<T>, y: seq<T>, z: seq<T>)
    ensures (x + y) + z == x + (y + z)
  {
  }

  /** `a < b` on JavaScript strings: the first differing code unit decides,
      and a proper prefix is smaller. (Dafny's own `<` on sequences is the
      proper-prefix relation alone.) */
  function StringLess(a: JsString, b: JsString): (r: bool)
    ensures r ==> a != b
    ensures a < b ==> r
    decreases |a|
  {
    if a == [] then b != []
    else if b == [] then false
    else if a[0] != b[0] then a[0] < b[0]
    else
      assert a < b ==> a[1..] < b[1..];
      StringLess(a[1..], b[1..])
  }

  /** `a` and `b` agree before index `k` and `a` has the smaller code unit at `k`. */
  ghost predicate FirstDifferenceAt(a: JsString, b: JsString, k: nat) {
    k < |a| && k < |b| && a[..k] == b[..k] && a[k] < b[k]
  }

  /** Strings with different first code units can only first differ at 0. */
  lemma DifferenceAtHead(a: JsString, b: JsString, k: nat)
    requires a != [] && b != [] && a[0] != b[0]
    ensures FirstDifferenceAt(a, b, k) <==> k == 0 && a[0] < b[0]
  {
    if 0 < k < |a| && k < |b| {
      assert a[..k][0] == a[0] && b[..k][0] == b[0];
    }
    assert a[..0] == b[..0];
  }

  /** Strings with the same first code unit first differ one position later
      than their tails do. */
  lemma DifferenceShift(a: JsString, b: JsString, k: nat)
    requires a != [] && b != [] && a[0] == b[0]
    ensures FirstDifferenceAt(a, b, k + 1) <==> FirstDifferenceAt(a[1..], b[1..], k)
  {
    if k + 1 <= |a| && k + 1 <= |b| {
      assert a[..k + 1] == [a[0]] + a[1..][..k];
      assert b[..k + 1] == [b[0]] + b[1..][..k];
    }
  }

  /** StringLess is the usual lexicographic order: a proper prefix, or a smaller
      code unit at the first position where the strings differ. */
  lemma {:induction false} StringLessIsLexicographic(a: JsString, b: JsString)
    ensures StringLess(a, b) <==> (a < b || exists k: nat :: FirstDifferenceAt(a, b, k))
    decreases |a|
  {
    if a == [] || b == [] {
      assert forall k: nat :: !FirstDifferenceAt(a, b, k);
    } else if a[0] != b[0] {
      assert !(a < b);
      forall k: nat
        ensures FirstDifferenceAt(a, b, k) <==> k == 0 && a[0] < b[0]
      {
        DifferenceAtHead(a, b, k);
      }
      assert a[0] < b[0] <==> FirstDifferenceAt(a, b, 0);
    } else {
      StringLessIsLexicographic(a[1..], b[1..]);
      var a', b' := a[1..], b[1..];
      assert a == [a[0]] + a' && b == [b[0]] + b';
      assert a < b <==> a' < b';
      if exists k: nat :: FirstDifferenceAt(a', b', k) {
        var k: nat :| FirstDifferenceAt(a', b', k);
        DifferenceShift(a, b, k);
      }
      if exists k: nat :: FirstDifferenceAt(a, b, k) {
        var k: nat :| FirstDifferenceAt(a, b, k);
        assert a[..0] == b[..0];
        assert k != 0;
        DifferenceShift(a, b, k - 1);
      }
    }
  }

  /** No string is greater than itself, so `myPeer.id > u.peerId` never holds for one's own id. */
  lemma {:induction false} StringLessIrreflexive(a: JsString)
    ensures !StringLess(a, a)
    decreases |a|
  {
    if a != [] {
      StringLessIrreflexive(a[1..]);
    }
  }

  /** At most one of `a < b` and `b < a` holds. */
  lemma {:induction false} StringLessAsymmetric(a: JsString, b: JsString)
    ensures !(StringLess(a, b) && StringLess(b, a))
    decreases |a|
  {
    if a != [] && b != [] && a[0] == b[0] {
      StringLessAsymmetric(a[1..], b[1..]);
    }
  }

  /** Two different strings are always ordered one way or the other. */
  lemma {:induction false} StringLessTotal(a: JsString, b: JsString)
    requires a != b
    ensures StringLess(a, b) || StringLess(b, a)
    decreases |a|
  {
    if a != [] && b != [] && a[0] == b[0] {
      assert a == [a[0]] + a[1..] && b == [b[0]] + b[1..];
      StringLessTotal(a[1..], b[1..]);
    }
  }

  /** The order is transitive. */
  lemma {:induction false} StringLessTransitive(a: JsString, b: JsString, c: JsString)
    requires StringLess(a, b) && StringLess(b, c)
    ensures StringLess(a, c)
    decreases |a|
  {
    if a != [] && b != [] && c != [] && a[0] == b[0] && b[0] == c[0] {
      StringLessTransitive(a[1..], b[1..], c[1..]);
    }
  }
}
