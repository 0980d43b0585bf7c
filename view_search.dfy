/**
 * `findInput`: the search for the text field inside a number picker's view
 * tree. The loop recurses into child groups but throws the recursive result
 * away, so only a direct child can ever be returned.
 */
module ViewSearch {
  import opened Wrappers

  /**
   * A view. `EditText` and `ViewGroup` are distinct kinds (a text field is
   * not a group); `Widget` is any other view. `id` tells apart views that
   * are otherwise alike.
   */
  datatype View =
    | EditText(id: int)
    | ViewGroup(children: seq<View>)
    | Widget(id: int)

  /** The first `EditText` among `views`, in index order. */
  function FirstEditText(views: seq<View>): (r: Option<View>)
  {
    if views == [] then None
    else if views[0].EditText? then Some(views[0])
    else FirstEditText(views[1..])
  }

  /** Whether an `EditText` occurs anywhere below `v`, at any depth. */
  predicate ContainsEditText(v: View)
  {
    match v
    case EditText(_) => true
    case Widget(_) => false
    case ViewGroup(children) => exists i :: 0 <= i < |children| && ContainsEditText(children[i])
  }

  /**
   * `findInput(np)`: walks the children in index order; a child group is
   * searched recursively but the answer is discarded; the first child that is
   * an `EditText` is returned; otherwise the result is null.
   */
  method FindInput(np: View) returns (r: Option<View>)
    requires np.ViewGroup?
    ensures r == FirstEditText(np.children)
    decreases np
  {
    var count := |np.children|;
    for i := 0 to count
      invariant FirstEditText(np.children) == FirstEditText(np.children[i..])
    {
      var child := np.children[i];
      assert np.children[i..][1..] == np.children[i + 1..];
      if child.ViewGroup? {
        var _ := FindInput(child);
      } else if child.EditText? {
        return Some(child);
      }
    }
    return None;
  }

  /**
   * The answer is the first direct child that is an `EditText`, and null
   * exactly when no direct child is one.
   */
  lemma {:induction false} FirstEditTextIsFirst(views: seq<View>)
    ensures FirstEditText(views).None? <==> forall j :: 0 <= j < |views| ==> !views[j].EditText?
    ensures FirstEditText(views).Some? ==>
      exists k :: 0 <= k < |views| && views[k] == FirstEditText(views).value && views[k].EditText?
        && forall j :: 0 <= j < k ==> !views[j].EditText?
  {
    if views != [] && !views[0].EditText? {
      var rest := views[1..];
      FirstEditTextIsFirst(rest);
      assert forall j :: 1 <= j < |views| ==> views[j] == rest[j - 1];
      if FirstEditText(rest).Some? {
        var k :| 0 <= k < |rest| && rest[k] == FirstEditText(rest).value && rest[k].EditText?
          && forall j :: 0 <= j < k ==> !rest[j].EditText?;
        assert views[k + 1] == rest[k];
      }
    }
  }

  /**
   * With no direct `EditText` child the search finds nothing, whatever the
   * child groups contain.
   */
  lemma NoDirectEditTextFindsNothing(views: seq<View>)
    requires forall j :: 0 <= j < |views| ==> !views[j].EditText?
    ensures FirstEditText(views) == None
  {
    FirstEditTextIsFirst(views);
  }

  /**
   * Replacing a child group by any other group never changes the answer:
   * the contents of child groups play no part in the search.
   */
  lemma {:induction false} GroupContentsIgnored(views: seq<View>, k: int, g: View)
    requires 0 <= k < |views| && views[k].ViewGroup? && g.ViewGroup?
    ensures FirstEditText(views[k := g]) == FirstEditText(views)
  {
    var replaced := views[k := g];
    if k > 0 && !views[0].EditText? {
      assert replaced[1..] == views[1..][k - 1 := g];
      GroupContentsIgnored(views[1..], k - 1, g);
    } else if k == 0 {
      assert replaced[1..] == views[1..];
    }
  }

  /**
   * A text field nested one group down is never found, although it lies in
   * the tree: the recursive call's result is not used.
   */
  lemma NestedEditTextIsMissed(id: int)
    ensures ContainsEditText(ViewGroup([ViewGroup([EditText(id)])]))
    ensures FirstEditText(ViewGroup([ViewGroup([EditText(id)])]).children) == None
  {
    var inner := ViewGroup([EditText(id)]);
    assert ContainsEditText(inner.children[0]);
    assert ContainsEditText(inner);
    assert ContainsEditText(ViewGroup([inner]).children[0]);
  }
}
