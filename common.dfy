/** Small pieces shared by the list pages: an optional value, the tab-to-query
    argument rule, and the "first two items, then +k more" preview. */
module Common {

  datatype Option<+T> = None | Some(value: T)

  /** The server query argument for a list tab: the "all" tab asks for
      everything (JavaScript `undefined`), any other tab filters by its name.
      The quotations and orders pages share this rule. */
  function TabQuery(tab: string): (q: Option<string>)
    ensures q.None? <==> tab == "all"
    ensures q.Some? ==> q.value == tab
  {
    if tab == "all" then None else Some(tab)
  }

  /** The number of items a card lists before the "+k more" line. */
  const PreviewLimit: nat := 2

  /** `items.slice(0, 2)`: the items a card lists. */
  function Preview<T>(items: seq<T>): (shown: seq<T>)
    ensures |shown| <= PreviewLimit
    ensures |shown| == if |items| < PreviewLimit then |items| else PreviewLimit
    ensures shown <= items
  {
    if |items| <= PreviewLimit then items else items[..PreviewLimit]
  }

  /** The "+k more" line: present only when more than two items exist. */
  function MoreCount<T>(items: seq<T>): (more: Option<nat>)
    ensures more.Some? <==> |items| > PreviewLimit
    ensures more.Some? ==> more.value > 0
  {
    if |items| > PreviewLimit then Some(|items| - PreviewLimit) else None
  }

  /** What a card lists and what its "+k more" line counts account for every
      item exactly once. */
  lemma PreviewAccountsForAll<T>(items: seq<T>)
    ensures |Preview(items)| + (match MoreCount(items) case Some(k) => k case None => 0) == |items|
    ensures MoreCount(items).None? ==> Preview(items) == items
  {
  }

  /** The position of the first `c` in `s`, as `String.prototype.indexOf`
      finds it (`None` for -1). */
  function FirstIndex(s: string, c: char): (i: Option<nat>)
    ensures i.None? <==> c !in s
    ensures i.Some? ==> i.value < |s| && s[i.value] == c && c !in s[..i.value]
  {
    if s == [] then None
    else if s[0] == c then Some(0)
    else
      match FirstIndex(s[1..], c)
      case None => None
      case Some(j) =>
        assert s[..j + 1] == [s[0]] + s[1..][..j];
        Some(j + 1)
  }

  /** The first `c` of `a + [c] + b` is the one after `a` when `a` has none. */
  lemma {:induction false} FirstIndexAfter(a: string, c: char, b: string)
    requires c !in a
    ensures FirstIndex(a + [c] + b, c) == Some(|a|)
  {
    var s := a + [c] + b;
    assert s[|a|] == c;
    assert s[..|a|] == a;
  }
}
