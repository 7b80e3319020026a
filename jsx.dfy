/**
 * The few JavaScript and React rules the components rely on: string
 * truthiness and `||`, how a missing value prints inside JSX text and inside
 * a template literal, and that a `null` child renders nothing.
 */
module Jsx {
  import opened Wrappers

  /** A string value is truthy in JavaScript when it is present and non-empty. */
  predicate Truthy(s: Option<string>) {
    s.Some? && s.value != ""
  }

  /** `a || b` where `a` may be missing: falsy `a` gives `b`. */
  function Or(a: Option<string>, b: string): (r: string)
    ensures Truthy(a) ==> Some(r) == a
    ensures !Truthy(a) ==> r == b
  {
    if Truthy(a) then a.value else b
  }

  /** `{x}` as a JSX child: `undefined` renders as no text. */
  function Text(x: Option<string>): string {
    x.GetOr("")
  }

  /** `${x}` inside a template literal: `undefined` prints as the word "undefined". */
  function Interpolate(x: Option<string>): string {
    x.GetOr("undefined")
  }

  /** The elements React puts on screen for a list of children: a `null` child renders nothing. */
  function Rendered<T>(children: seq<Option<T>>): (r: seq<T>)
    ensures |r| <= |children|
    ensures forall k :: 0 <= k < |r| ==> Some(r[k]) in children
    ensures forall i :: 0 <= i < |children| && children[i].Some? ==> children[i].value in r
    ensures (forall i :: 0 <= i < |children| ==> children[i].Some?) ==> |r| == |children|
  {
    if children == [] then []
    else
      var rest := Rendered(children[1..]);
      assert forall i :: 1 <= i < |children| ==> children[i] == children[1..][i - 1];
      match children[0]
      case None => rest
      case Some(x) => [x] + rest
  }

  /** Rendering a list of children piece by piece gives the same elements in the same order. */
  lemma {:induction false} RenderedAppend<T>(a: seq<Option<T>>, b: seq<Option<T>>)
    ensures Rendered(a + b) == Rendered(a) + Rendered(b)
  {
    if a == [] {
      assert a + b == b;
    } else {
      assert (a + b)[1..] == a[1..] + b;
      RenderedAppend(a[1..], b);
    }
  }
}
