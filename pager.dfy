/** The "previous / next" pager of the advanced-specifications window
    (`open_3_dots_details` in src/ui_functions.py), once per GPU, RAM and disk list:
    an index that starts at 0, a `<` and a `>` button that move it by one, and a
    refresh that shows the selected item, the title `(index+1/len)` and enables a
    button only when it does not lead past an end. */
module Pager {
  import opened Wrappers
  import opened Text

  datatype Button = Prev | Next

  /** `<` is enabled when the index is above 0. */
  predicate PrevEnabled(index: int)
  {
    index > 0
  }

  /** `>` is enabled when the index is below `len - 1`. */
  predicate NextEnabled(index: int, len: int)
  {
    index < len - 1
  }

  /** The title of a pager: `"<heading> Specifications (<position>/<len>)"`. */
  function Title(heading: string, position: int, len: int): (t: string)
    ensures |t| == |heading| + |IntToString(position)| + |IntToString(len)| + 19
    ensures t[|t| - 1] == ')'
  {
    heading + " Specifications (" + IntToString(position) + "/" + IntToString(len) + ")"
  }

  /** The index after pressing a button; a disabled button does not fire. */
  function Press(index: int, len: int, b: Button): (j: int)
    ensures 0 <= index < len ==> 0 <= j < len
    ensures j == index || (b == Prev && j == index - 1) || (b == Next && j == index + 1)
    ensures j != index <==> (b == Prev && index > 0) || (b == Next && index < len - 1)
  {
    match b
    case Prev => if PrevEnabled(index) then index - 1 else index
    case Next => if NextEnabled(index, len) then index + 1 else index
  }

  /** The index after pressing `presses` in turn, starting from 0; however the
      buttons are pressed, the index of a non-empty list stays in [0, len - 1]. */
  function Run(len: nat, presses: seq<Button>): (j: int)
    ensures len > 0 ==> 0 <= j < len
  {
    if presses == [] then 0 else Press(Run(len, presses[..|presses| - 1]), len, presses[|presses| - 1])
  }

  /** Pressing `>` k times shows the k-th item, so every item can be reached. */
  lemma {:induction false} NextReachesEveryItem(len: nat, k: nat)
    requires k < len
    ensures Run(len, seq(k, _ => Next)) == k
  {
    if k > 0 {
      var presses := seq(k, _ => Next);
      assert presses[..k - 1] == seq(k - 1, _ => Next);
      NextReachesEveryItem(len, k - 1);
    }
  }

  /** There is no wrap-around: `>` on the last item and `<` on the first do nothing. */
  lemma NoWrapAround(len: nat)
    requires len > 0
    ensures Press(len - 1, len, Next) == len - 1
    ensures Press(0, len, Prev) == 0
  {
  }

  /** The digits of two numbers written before a `/` are told apart by the `/`. */
  lemma SplitAtSlash(a: string, x: string, b: string, y: string)
    requires AllDigits(a) && AllDigits(b)
    requires a + "/" + x == b + "/" + y
    ensures a == b && x == y
  {
    var s := a + "/" + x;
    assert forall k :: 0 <= k < |a| ==> s[k] == a[k] && s[k] != '/';
    assert forall k :: 0 <= k < |b| ==> s[k] == b[k] && s[k] != '/';
    assert s[|a|] == '/';
    assert (b + "/" + y)[|b|] == '/';
    assert |a| == |b|;
    assert a == s[..|a|] == b;
    assert x == s[|a| + 1..] == y;
  }

  /** The text a title shows after its heading. */
  lemma TitleSplits(heading: string, p: nat, n: nat)
    ensures Title(heading, p, n)
            == (heading + " Specifications (") + (NatToString(p) + "/" + (NatToString(n) + ")"))
  {
  }

  /** The title tells position and length apart: two titles of one pager are equal
      only when they show the same position of the same length. */
  lemma TitleDeterminesPosition(heading: string, p1: nat, n1: nat, p2: nat, n2: nat)
    requires Title(heading, p1, n1) == Title(heading, p2, n2)
    ensures p1 == p2 && n1 == n2
  {
    var prefix := heading + " Specifications (";
    var u1 := NatToString(n1) + ")";
    var u2 := NatToString(n2) + ")";
    var t1 := NatToString(p1) + "/" + u1;
    var t2 := NatToString(p2) + "/" + u2;
    TitleSplits(heading, p1, n1);
    TitleSplits(heading, p2, n2);
    assert prefix + t1 == prefix + t2;
    assert t1 == (prefix + t1)[|prefix|..];
    assert t2 == (prefix + t2)[|prefix|..];
    SplitAtSlash(NatToString(p1), u1, NatToString(p2), u2);
    assert NatToString(n1) == u1[..|u1| - 1];
    assert NatToString(n2) == u2[..|u2| - 1];
    NatToStringInjective(p1, p2);
    NatToStringInjective(n1, n2);
  }

  /** The widgets of one pager: the one-element index list, the detail label (the
      item it shows), the title label and the two buttons' states. */
  class Pager<T> {
    const items: seq<T>
    const heading: string
    var index: int
    var shown: Option<T>
    var title: string
    var prevEnabled: bool
    var nextEnabled: bool

    /** The widgets show the item at `index` (Python indexing, so a negative index
        counts from the end), the title `(index+1/len)` and the button states that
        follow from it: what a successful refresh leaves. */
    ghost predicate Displays()
      reads this
    {
      && -|items| <= index < |items|
      && shown == Some(items[if index < 0 then index + |items| else index])
      && title == Title(heading, index + 1, |items|)
      && prevEnabled == PrevEnabled(index)
      && nextEnabled == NextEnabled(index, |items|)
    }

    /** The state the window keeps on a non-empty list: a refreshed view at an
        index within [0, len - 1]. */
    ghost predicate Valid()
      reads this
    {
      |items| > 0 && 0 <= index < |items| && Displays()
    }

    /** The widgets as created, before the first refresh: index 0, the title
        `(1/len)`, an empty label and both buttons in their default, enabled state. */
    constructor (items: seq<T>, heading: string)
      ensures this.items == items && this.heading == heading
      ensures index == 0 && shown == None && title == Title(heading, 1, |items|)
      ensures prevEnabled && nextEnabled
    {
      this.items := items;
      this.heading := heading;
      index := 0;
      shown := None;
      title := Title(heading, 1, |items|);
      prevEnabled := true;
      nextEnabled := true;
    }

    /** `update_*_label`: `items[index]` (Python indexing, so a negative index counts
        from the end) raises `IndexError` outside [-len, len), and then nothing is
        updated; otherwise the label, title and buttons are set from the index. */
    method Refresh() returns (ok: bool)
      modifies this
      ensures ok <==> -|items| <= index < |items|
      ensures index == old(index)
      ensures !ok ==> shown == old(shown) && title == old(title)
                      && prevEnabled == old(prevEnabled) && nextEnabled == old(nextEnabled)
      ensures ok ==> Displays()
    {
      ok := -|items| <= index < |items|;
      if ok {
        var item := items[if index < 0 then index + |items| else index];
        var t := Title(heading, index + 1, |items|);
        shown, title := Some(item), t;
        prevEnabled, nextEnabled := PrevEnabled(index), NextEnabled(index, |items|);
      }
    }

    /** The `<` button: when enabled, decrement the index and refresh; the refresh
        raises `IndexError` when the new index is out of range, leaving the widgets
        as they were. */
    method PressPrev() returns (ok: bool)
      modifies this
      ensures index == if old(prevEnabled) then old(index) - 1 else old(index)
      ensures !old(prevEnabled) ==> ok && unchanged(this)
      ensures old(prevEnabled) ==> (ok <==> -|items| <= index < |items|)
      ensures old(prevEnabled) && !ok ==> shown == old(shown) && title == old(title)
                                          && prevEnabled == old(prevEnabled) && nextEnabled == old(nextEnabled)
      ensures old(prevEnabled) && ok ==> Displays()
      ensures old(Valid()) ==> Valid() && ok && index == Press(old(index), |items|, Prev)
    {
      ok := true;
      if prevEnabled {
        index := index - 1;
        ok := Refresh();
      }
    }

    /** The `>` button: when enabled, increment the index and refresh; the refresh
        raises `IndexError` when the new index is out of range, leaving the widgets
        as they were. */
    method PressNext() returns (ok: bool)
      modifies this
      ensures index == if old(nextEnabled) then old(index) + 1 else old(index)
      ensures !old(nextEnabled) ==> ok && unchanged(this)
      ensures old(nextEnabled) ==> (ok <==> -|items| <= index < |items|)
      ensures old(nextEnabled) && !ok ==> shown == old(shown) && title == old(title)
                                          && prevEnabled == old(prevEnabled) && nextEnabled == old(nextEnabled)
      ensures old(nextEnabled) && ok ==> Displays()
      ensures old(Valid()) ==> Valid() && ok && index == Press(old(index), |items|, Next)
    {
      ok := true;
      if nextEnabled {
        index := index + 1;
        ok := Refresh();
      }
    }
  }

  /** Creating a pager and refreshing it once, as the window does for each list:
      the first refresh fails (`IndexError`) exactly when the list is empty, and
      then the widgets stay as created, with both buttons enabled. */
  method Open<T>(items: seq<T>, heading: string) returns (p: Pager<T>, ok: bool)
    ensures fresh(p) && p.items == items && p.heading == heading
    ensures ok <==> |items| > 0
    ensures ok ==> p.Valid() && p.index == 0
    ensures !ok ==> && p.index == 0 && p.shown == None && p.title == Title(heading, 1, 0)
                    && p.prevEnabled && p.nextEnabled
  {
    p := new Pager(items, heading);
    ok := p.Refresh();
  }

  /** On an empty list the first refresh raises and leaves both buttons enabled;
      pressing `>` and then `<` changes the index each time and raises again, and
      no item is ever shown. */
  method PressesOnEmpty<T>(heading: string) returns (ok: bool, okNext: bool, okPrev: bool, shown: Option<T>)
    ensures !ok && !okNext && !okPrev && shown == None
  {
    var p: Pager<T>;
    p, ok := Open([], heading);
    okNext := p.PressNext();
    okPrev := p.PressPrev();
    shown := p.shown;
  }
}

/** The appearance-mode setting of src/ui_functions.py: the widget mode and the
    chart colours each choice selects. */
module Appearance {
  import opened Wrappers

  /** The customtkinter mode and the chart's background and foreground colours. */
  datatype Theme = Theme(mode: string, background: string, foreground: string)

  /** `None` is the error message box: the theme is not changed. */
  function ThemeFor(choice: string): (r: Option<Theme>)
    ensures r.Some? <==> choice == "Dark" || choice == "Light"
    ensures choice == "Dark" ==> r == Some(Theme("dark", "#242424", "white"))
    ensures choice == "Light" ==> r == Some(Theme("light", "#ebebeb", "black"))
  {
    if choice == "Dark" then Some(Theme("dark", "#242424", "white"))
    else if choice == "Light" then Some(Theme("light", "#ebebeb", "black"))
    else None
  }
}
