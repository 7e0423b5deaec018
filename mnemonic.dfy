/** The mnemonic markup the panel's generated `$$$loadLabelText$$$` and
    `$$$loadButtonText$$$` read from a bundle string: `&c` marks `c` as the
    mnemonic and shows `c`, `&&` shows one `&`, and a `&` that ends the
    string is dropped. Only the first `&c` with `c` other than `&` becomes
    the mnemonic; its index is the position of `c` in the shown text. */
module Mnemonic {

  datatype Option<T> = None | Some(value: T)

  /** A mnemonic character and its index in the shown text. */
  datatype Mark = Mark(ch: char, index: nat)

  /** The text shown for `s`: each `&` is dropped and the character after it
      kept, whatever it is; a final lone `&` is dropped. */
  function StripMarkers(s: string): (r: string)
    ensures |r| <= |s|
  {
    if s == [] then []
    else if s[0] == '&' then
      if |s| == 1 then [] else [s[1]] + StripMarkers(s[2..])
    else [s[0]] + StripMarkers(s[1..])
  }

  /** Moves a mark `k` positions to the right. */
  function Shift(m: Option<Mark>, k: nat): Option<Mark> {
    match m
    case None => None
    case Some(mark) => Some(Mark(mark.ch, mark.index + k))
  }

  /** The first `&c` with `c` other than `&`, with the index `c` gets in the
      shown text; an escaped `&&` is skipped. */
  function FindMnemonic(s: string): (r: Option<Mark>)
    ensures r.Some? ==> r.value.ch != '&' && r.value.index < |s|
  {
    if s == [] then None
    else if s[0] == '&' then
      if |s| == 1 then None
      else if s[1] != '&' then Some(Mark(s[1], 0))
      else Shift(FindMnemonic(s[2..]), 1)
    else Shift(FindMnemonic(s[1..]), 1)
  }

  lemma ShiftAdd(m: Option<Mark>, j: nat, k: nat)
    ensures Shift(Shift(m, j), k) == Shift(m, j + k)
  {
  }

  /** The mnemonic always names a character of the shown text, other than
      `&`, so the index handed to `setDisplayedMnemonicIndex` is in range. */
  lemma {:induction false} MnemonicInShownText(s: string)
    requires FindMnemonic(s).Some?
    ensures FindMnemonic(s).value.index < |StripMarkers(s)|
    ensures StripMarkers(s)[FindMnemonic(s).value.index] == FindMnemonic(s).value.ch
    ensures FindMnemonic(s).value.ch != '&'
  {
    if s[0] == '&' && s[1] == '&' {
      MnemonicInShownText(s[2..]);
    } else if s[0] != '&' {
      MnemonicInShownText(s[1..]);
    }
  }

  /** `s` leaves no `&` dangling at its end: every `&` in it has a
      character after it that it applies to. */
  predicate Complete(s: string) {
    if s == [] then true
    else if s[0] == '&' then |s| >= 2 && Complete(s[2..])
    else Complete(s[1..])
  }

  /** A string without `&` is shown as it is and has no mnemonic. */
  lemma {:induction false} NoMarkersUnchanged(s: string)
    requires '&' !in s
    ensures StripMarkers(s) == s
    ensures FindMnemonic(s) == None
  {
    if s != [] {
      assert '&' !in s[1..] by {
        assert forall k :: 0 <= k < |s[1..]| ==> s[1..][k] == s[k + 1];
      }
      NoMarkersUnchanged(s[1..]);
    }
  }

  /** The shown text is shorter than the bundle string exactly when the
      string holds a `&`. */
  lemma {:induction false} StripShortensIffMarker(s: string)
    ensures |StripMarkers(s)| < |s| <==> '&' in s
  {
    if '&' !in s {
      NoMarkersUnchanged(s);
    } else if s[0] != '&' {
      assert s == [s[0]] + s[1..];
      assert '&' in s[1..];
      StripShortensIffMarker(s[1..]);
    }
  }

  /** `&&` shows one `&` and moves a later mnemonic one position right. */
  lemma EscapedMarker(s: string)
    ensures StripMarkers("&&" + s) == "&" + StripMarkers(s)
    ensures FindMnemonic("&&" + s) == Shift(FindMnemonic(s), 1)
  {
    assert ("&&" + s)[2..] == s;
  }

  /** After a complete prefix, the rest of the string is read on its own:
      the shown texts concatenate, and the mnemonic is the prefix's if it
      has one, else the rest's moved past the prefix's shown text. */
  lemma {:induction false} ConcatComplete(a: string, b: string)
    requires Complete(a)
    ensures StripMarkers(a + b) == StripMarkers(a) + StripMarkers(b)
    ensures FindMnemonic(a + b)
            == if FindMnemonic(a).Some? then FindMnemonic(a) else Shift(FindMnemonic(b), |StripMarkers(a)|)
  {
    if a != [] {
      var n := if a[0] == '&' then 2 else 1;
      var t := a[n..];
      assert (a + b)[n..] == t + b;
      ConcatComplete(t, b);
      var c := a[n - 1];
      assert StripMarkers(a + b) == [c] + StripMarkers(t + b);
      assert StripMarkers(a) == [c] + StripMarkers(t);
      assert [c] + (StripMarkers(t) + StripMarkers(b)) == ([c] + StripMarkers(t)) + StripMarkers(b);
      ShiftAdd(FindMnemonic(b), |StripMarkers(t)|, 1);
    } else {
      assert a + b == b;
    }
  }

  /** A lone `&` after a complete prefix is dropped and adds no mnemonic. */
  lemma TrailingMarkerDropped(a: string)
    requires Complete(a)
    ensures StripMarkers(a + "&") == StripMarkers(a)
    ensures FindMnemonic(a + "&") == FindMnemonic(a)
  {
    ConcatComplete(a, "&");
  }

  /** The first unescaped marker decides the mnemonic: after a complete
      prefix without one, `&c` with `c` other than `&` gives `c` at the
      position the prefix's shown text ends, whatever follows. */
  lemma FirstMarkerIsMnemonic(p: string, c: char, rest: string)
    requires Complete(p) && FindMnemonic(p) == None && c != '&'
    ensures FindMnemonic(p + ['&', c] + rest) == Some(Mark(c, |StripMarkers(p)|))
  {
    assert p + ['&', c] + rest == p + (['&', c] + rest);
    ConcatComplete(p, ['&', c] + rest);
  }

  /** Conversely, a mnemonic always comes from such a marker: the string
      splits at position `p` into a complete prefix without a mnemonic,
      then `&` and the mnemonic character. */
  lemma {:induction false} MnemonicHasMarker(s: string) returns (p: nat)
    requires FindMnemonic(s).Some?
    ensures p + 1 < |s| && s[p] == '&' && s[p + 1] == FindMnemonic(s).value.ch
    ensures Complete(s[..p]) && FindMnemonic(s[..p]) == None
    ensures FindMnemonic(s).value.index == |StripMarkers(s[..p])|
  {
    if s[0] == '&' && s[1] != '&' {
      p := 0;
    } else {
      var n := if s[0] == '&' then 2 else 1;
      var q := MnemonicHasMarker(s[n..]);
      p := q + n;
      assert s[..p] == s[..n] + s[n..][..q];
      assert s[..p][n..] == s[n..][..q];
    }
  }

  /** The text the loader's loop still appends when it reads `s` from
      position `i` on. */
  function ShownFrom(s: string, i: nat): string
    decreases |s| - i
  {
    if i >= |s| then []
    else if s[i] == '&' then
      if i + 1 == |s| then [] else [s[i + 1]] + ShownFrom(s, i + 2)
    else [s[i]] + ShownFrom(s, i + 1)
  }

  /** The mnemonic the loop still finds reading `s` from position `i`, its
      index counted from the first character it appends from there. */
  function MarkFrom(s: string, i: nat): Option<Mark>
    decreases |s| - i
  {
    if i >= |s| then None
    else if s[i] == '&' then
      if i + 1 == |s| then None
      else if s[i + 1] != '&' then Some(Mark(s[i + 1], 0))
      else Shift(MarkFrom(s, i + 2), 1)
    else Shift(MarkFrom(s, i + 1), 1)
  }

  /** Reading from position `i` is reading the suffix `s[i..]`. */
  lemma {:induction false} FromIndex(s: string, i: nat)
    requires i <= |s|
    ensures ShownFrom(s, i) == StripMarkers(s[i..])
    ensures MarkFrom(s, i) == FindMnemonic(s[i..])
    decreases |s| - i
  {
    if i < |s| {
      if s[i] == '&' && i + 1 < |s| {
        assert s[i..][2..] == s[i + 2..];
        FromIndex(s, i + 2);
      } else if s[i] != '&' {
        assert s[i..][1..] == s[i + 1..];
        FromIndex(s, i + 1);
      }
    }
  }

  /** Reading from position 0 is reading the whole string. */
  lemma FromStart(s: string)
    ensures ShownFrom(s, 0) == StripMarkers(s)
    ensures MarkFrom(s, 0) == FindMnemonic(s)
  {
    FromIndex(s, 0);
    assert s[0..] == s;
  }

  /** One turn of the loader's loop from position `i`: the character it
      appends, and how the text and mark still to come shrink. The last
      conjunct of each case is `ShiftAdd` for the shift the loop needs; it is
      stated here so that the loop body's own proof stays small. */
  lemma ReadStep(s: string, i: nat, result: string)
    requires i < |s|
    ensures s[i] == '&' && i + 1 < |s| ==>
              result + ShownFrom(s, i) == (result + [s[i + 1]]) + ShownFrom(s, i + 2)
              && MarkFrom(s, i) == (if s[i + 1] != '&' then Some(Mark(s[i + 1], 0)) else Shift(MarkFrom(s, i + 2), 1))
              && Shift(Shift(MarkFrom(s, i + 2), 1), |result|) == Shift(MarkFrom(s, i + 2), |result| + 1)
    ensures s[i] != '&' ==>
              result + ShownFrom(s, i) == (result + [s[i]]) + ShownFrom(s, i + 1)
              && MarkFrom(s, i) == Shift(MarkFrom(s, i + 1), 1)
              && Shift(Shift(MarkFrom(s, i + 1), 1), |result|) == Shift(MarkFrom(s, i + 1), |result| + 1)
  {
    if s[i] == '&' && i + 1 < |s| {
      assert ShownFrom(s, i) == [s[i + 1]] + ShownFrom(s, i + 2);
      assert result + ([s[i + 1]] + ShownFrom(s, i + 2)) == (result + [s[i + 1]]) + ShownFrom(s, i + 2);
      ShiftAdd(MarkFrom(s, i + 2), 1, |result|);
    } else if s[i] != '&' {
      assert ShownFrom(s, i) == [s[i]] + ShownFrom(s, i + 1);
      assert result + ([s[i]] + ShownFrom(s, i + 1)) == (result + [s[i]]) + ShownFrom(s, i + 1);
      ShiftAdd(MarkFrom(s, i + 1), 1, |result|);
    }
  }

  /** The loop the generated loaders share: copies `text` into `shown`,
      dropping markers, and records the first mnemonic; without one the
      mnemonic stays `'\0'` and its index `-1`. */
  method ParseText(text: string) returns (shown: string, haveMnemonic: bool, mnemonic: char, mnemonicIndex: int)
    ensures shown == StripMarkers(text)
    ensures haveMnemonic <==> FindMnemonic(text).Some?
    ensures haveMnemonic ==> mnemonicIndex >= 0 && FindMnemonic(text) == Some(Mark(mnemonic, mnemonicIndex))
    ensures !haveMnemonic ==> mnemonic == '\0' && mnemonicIndex == -1
    ensures haveMnemonic ==> 0 <= mnemonicIndex < |shown| && shown[mnemonicIndex] == mnemonic
  {
    var result := "";
    haveMnemonic := false;
    mnemonic := '\0';
    mnemonicIndex := -1;
    var i := 0;
    while i < |text|
      invariant 0 <= i <= |text|
      invariant ShownFrom(text, 0) == result + ShownFrom(text, i)
      invariant haveMnemonic ==> mnemonicIndex >= 0 && MarkFrom(text, 0) == Some(Mark(mnemonic, mnemonicIndex))
      invariant !haveMnemonic ==> mnemonic == '\0' && mnemonicIndex == -1
      invariant !haveMnemonic ==> MarkFrom(text, 0) == Shift(MarkFrom(text, i), |result|)
    {
      ReadStep(text, i, result);
      if text[i] == '&' {
        i := i + 1;
        if i == |text| {
          break;
        }
        if !haveMnemonic && text[i] != '&' {
          haveMnemonic := true;
          mnemonic := text[i];
          mnemonicIndex := |result|;
        }
      }
      result := result + [text[i]];
      i := i + 1;
    }
    shown := result;
    FromStart(text);
    if haveMnemonic {
      MnemonicInShownText(text);
    }
  }
}
