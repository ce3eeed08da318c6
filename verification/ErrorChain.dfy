/** The line an error chain prints: what each layer says of its own, even where its text goes on with its
    cause's, joined from the outermost layer in. */
module ErrorChain {
  import opened Wrappers

  /** An error as it prints itself, and its cause. */
  datatype Error = Error(text: string, source: Option<Error>)

  // --- Text

  /** Unicode's White_Space. */
  predicate IsWhitespace(c: char) {
    '\t' <= c <= '\r' || c == ' ' || c == '\U{0085}' || c == '\U{00A0}' || c == '\U{1680}'
    || '\U{2000}' <= c <= '\U{200A}' || c == '\U{2028}' || c == '\U{2029}' || c == '\U{202F}'
    || c == '\U{205F}' || c == '\U{3000}'
  }

  predicate Ends(s: string, c: char) { s != "" && s[|s| - 1] == c }

  predicate Trimmed(s: string) { s == "" || !IsWhitespace(s[|s| - 1]) }

  predicate Blank(s: string) { forall i :: 0 <= i < |s| ==> IsWhitespace(s[i]) }

  function TrimEnd(s: string): string {
    if Trimmed(s) then s else TrimEnd(s[..|s| - 1])
  }

  /** What it takes off is blank, and it leaves nothing more to take. */
  lemma {:induction false} TrimEndSplits(s: string) returns (off: string)
    ensures Blank(off) && s == TrimEnd(s) + off && Trimmed(TrimEnd(s))
  {
    off := "";
    if !Trimmed(s) {
      off := TrimEndSplits(s[..|s| - 1]);
      off := off + [s[|s| - 1]];
    }
  }

  lemma {:induction false} TrimEndOf(s: string, off: string)
    requires Trimmed(s) && Blank(off)
    ensures TrimEnd(s + off) == s
  {
    if off == "" {
      assert s + off == s;
    } else {
      var shorter := off[..|off| - 1];
      assert (s + off)[..|s + off| - 1] == s + shorter;
      assert (s + off)[|s + off| - 1] == off[|off| - 1];
      TrimEndOf(s, shorter);
    }
  }

  lemma BlankEnd(s: string, off: string)
    ensures Trimmed(s + off) && Blank(off) ==> off == ""
  {
    if off != "" {
      assert (s + off)[|s + off| - 1] == off[|off| - 1];
    }
  }

  function StripColon(s: string): string {
    if Ends(s, ':') then s[..|s| - 1] else s
  }

  /** `s` without `suffix` at its end. */
  function StripSuffix(s: string, suffix: string): (rest: Option<string>)
    ensures rest.Some? ==> s == rest.value + suffix
  {
    if |suffix| <= |s| && s[|s| - |suffix|..] == suffix then Some(s[..|s| - |suffix|]) else None
  }

  lemma SuffixIsStripped(before: string, suffix: string)
    ensures StripSuffix(before + suffix, suffix) == Some(before)
  {
    assert (before + suffix)[|before|..] == suffix;
    assert (before + suffix)[..|before|] == before;
  }

  /** Where a cause's text can follow a layer's own. */
  predicate AtBoundary(rest: string) {
    rest == "" || Ends(rest, ' ') || Ends(rest, ':')
  }

  // --- One line

  /** A layer's own text ahead of its cause's, without what separates them. */
  function Cleaned(rest: string): string {
    TrimEnd(StripColon(TrimEnd(rest)))
  }

  /** A layer's text without its cause's at the end. */
  function Own(text: string, cause: Option<string>): string {
    match cause
    case None => text
    case Some(cause) =>
      match StripSuffix(text, cause)
      case None => text
      case Some(rest) => if AtBoundary(rest) then Cleaned(rest) else text
  }

  function CauseText(source: Option<Error>): Option<string> {
    match source
    case None => None
    case Some(cause) => Some(cause.text)
  }

  /** Each layer's own text, from the error down to its last cause. */
  ghost function Owns(error: Error): seq<string> {
    [Own(error.text, CauseText(error.source))] + if error.source.Some? then Owns(error.source.value) else []
  }

  /** The parts that say something, joined. */
  ghost function Join(parts: seq<string>): string {
    if parts == [] then ""
    else if parts[0] == "" then Join(parts[1..])
    else if Join(parts[1..]) == "" then parts[0]
    else parts[0] + ": " + Join(parts[1..])
  }

  /** One part more. */
  lemma {:induction false} JoinAppend(parts: seq<string>, part: string)
    ensures Join(parts + [part]) ==
      if part == "" then Join(parts) else if Join(parts) == "" then part else Join(parts) + ": " + part
  {
    if parts == [] {
      assert parts + [part] == [part];
    } else {
      assert (parts + [part])[1..] == parts[1..] + [part];
      JoinAppend(parts[1..], part);
      if parts[0] != "" && part != "" && Join(parts[1..]) != "" {
        assert parts[0] + ": " + (Join(parts[1..]) + ": " + part) == parts[0] + ": " + Join(parts[1..]) + ": " + part;
      }
    }
  }

  lemma OwnsOnward(error: Error, own: string, done: seq<string>)
    requires error.source.Some? && own == Own(error.text, CauseText(error.source))
    ensures done + Owns(error) == done + [own] + Owns(error.source.value)
  {}

  /** The error and its causes, each layer's own text once. */
  method Display(error: Error) returns (out: string)
    ensures out == Join(Owns(error))
  {
    var next := error.source;
    if next.None? {
      assert Owns(error) == [error.text];
      return error.text;
    }
    var text, first := error.text, true;
    out := "";
    ghost var current, done: seq<string> := error, [];
    while true
      invariant current == Error(text, next)
      invariant Owns(error) == done + Owns(current)
      invariant out == Join(done) && (first <==> out == "")
      decreases next
    {
      var own := Own(text, CauseText(next));
      if own != "" {
        if !first {
          out := out + ": ";
        }
        out := out + own;
        first := false;
      }
      JoinAppend(done, own);
      if next.None? {
        assert done + Owns(current) == done + [own];
        return;
      }
      OwnsOnward(current, own, done);
      done, current := done + [own], next.value;
      text, next := next.value.text, next.value.source;
    }
  }

  // --- What each layer means to say

  /** A layer that prints its own text alone, or with its cause's after it. */
  datatype Layer =
    | Plain(own: string)
    | Repeats(own: string, separator: string)

  function Printed(layer: Layer, cause: string): string {
    match layer
    case Plain(own) => own
    case Repeats(own, separator) => own + separator + cause
  }

  /** The error of `layers` over an error with no cause. */
  function Built(layers: seq<Layer>, leaf: string): Error {
    if layers == [] then Error(leaf, None) else
    var cause := Built(layers[1..], leaf);
    Error(Printed(layers[0], cause.text), Some(cause))
  }

  /** What each layer says of its own. */
  function Said(layers: seq<Layer>, leaf: string): seq<string> {
    if layers == [] then [leaf] else [layers[0].own] + Said(layers[1..], leaf)
  }

  /** Blank space, with one colon in it or, after a text that does not end in one, none; and nothing after no
      text at all. */
  ghost predicate Separates(own: string, separator: string) {
    && Trimmed(own) && AtBoundary(own + separator)
    && ((Blank(separator) && !Ends(own, ':'))
        || exists i :: 0 <= i < |separator| && ColonAt(separator, i))
  }

  ghost predicate ColonAt(separator: string, i: nat)
    requires i < |separator|
  {
    separator[i] == ':' && Blank(separator[..i]) && Blank(separator[i + 1..])
  }

  lemma SpaceIsCleaned(own: string, separator: string)
    requires Trimmed(own) && Blank(separator) && !Ends(own, ':')
    ensures Cleaned(own + separator) == own
  {
    TrimEndOf(own, separator);
    assert StripColon(own) == own == TrimEnd(own);
  }

  lemma ColonIsCleaned(own: string, inner: string, off: string)
    requires Trimmed(own) && Blank(inner) && Blank(off)
    ensures Cleaned(own + inner + ":" + off) == own
  {
    var kept := own + inner;
    assert Trimmed(kept + ":") && StripColon(kept + ":") == kept;
    TrimEndOf(kept + ":", off);
    TrimEndOf(own, inner);
  }

  lemma AroundColon(separator: string, i: nat)
    requires i < |separator| && separator[i] == ':'
    ensures separator == separator[..i] + ":" + separator[i + 1..]
  {
  }

  lemma SeparatorIsCleaned(own: string, separator: string)
    requires Separates(own, separator)
    ensures Cleaned(own + separator) == own
  {
    if Blank(separator) && !Ends(own, ':') {
      SpaceIsCleaned(own, separator);
    } else {
      var i :| 0 <= i < |separator| && ColonAt(separator, i);
      var inner, off := separator[..i], separator[i + 1..];
      AroundColon(separator, i);
      assert own + (inner + ":" + off) == own + inner + ":" + off;
      ColonIsCleaned(own, inner, off);
    }
  }

  /** Text cleaned to `own` continues it with blank space, then what the colon stripped left off, then blank
      space. */
  lemma CleanedSplits(own: string, separator: string) returns (inner: string, off: string)
    requires Cleaned(own + separator) == own
    ensures Blank(inner) && Blank(off) && Trimmed(own) && Trimmed(TrimEnd(own + separator))
    ensures StripColon(TrimEnd(own + separator)) == own + inner && own + separator == TrimEnd(own + separator) + off
  {
    off := TrimEndSplits(own + separator);
    inner := TrimEndSplits(StripColon(TrimEnd(own + separator)));
  }

  lemma ColonIsAt(inner: string, off: string)
    requires Blank(inner) && Blank(off)
    ensures ColonAt(inner + ":" + off, |inner|)
  {
    var separator := inner + ":" + off;
    assert separator[..|inner|] == inner && separator[|inner| + 1..] == off;
  }

  lemma PrefixCancels(own: string, a: string, b: string)
    requires own + a == own + b
    ensures a == b
  {
    assert (own + a)[|own|..] == a && (own + b)[|own|..] == b;
  }

  lemma ColonSeparates(own: string, separator: string, inner: string, off: string)
    requires Trimmed(own) && AtBoundary(own + separator) && Blank(inner) && Blank(off)
    requires own + separator == own + inner + ":" + off
    ensures Separates(own, separator)
  {
    assert own + inner + ":" + off == own + (inner + ":" + off);
    PrefixCancels(own, separator, inner + ":" + off);
    ColonIsAt(inner, off);
  }

  lemma SpaceSeparates(own: string, separator: string, inner: string, off: string)
    requires AtBoundary(own + separator) && Blank(inner) && Blank(off) && Trimmed(own + inner)
    requires !Ends(own + inner, ':') && own + separator == own + inner + off
    ensures Separates(own, separator)
  {
    BlankEnd(own, inner);
    assert own + inner == own;
    PrefixCancels(own, separator, off);
  }

  lemma CleanedIsSeparator(own: string, separator: string)
    requires AtBoundary(own + separator) && Cleaned(own + separator) == own
    ensures Separates(own, separator)
  {
    var inner, off := CleanedSplits(own, separator);
    var kept := TrimEnd(own + separator);
    if Ends(kept, ':') {
      assert kept == own + inner + ":";
      ColonSeparates(own, separator, inner, off);
    } else {
      SpaceSeparates(own, separator, inner, off);
    }
  }

  /** What separates a layer's own text from its cause's is exactly what cleaning takes off. */
  lemma SeparatorsAreWhatIsCleaned(own: string, separator: string)
    ensures Separates(own, separator) <==> AtBoundary(own + separator) && Cleaned(own + separator) == own
  {
    if Separates(own, separator) {
      SeparatorIsCleaned(own, separator);
    } else if AtBoundary(own + separator) && Cleaned(own + separator) == own {
      CleanedIsSeparator(own, separator);
    }
  }

  // --- Each message once

  /** A layer says its own: one that prints alone does not end as its cause, and one that goes on with its cause
      sets it apart, or adds nothing to a text of its own. */
  ghost predicate SaysItsOwn(layer: Layer, cause: string) {
    match layer
    case Plain(own) => !LooksRepeated(own, cause)
    case Repeats(own, separator) =>
      Separates(own, separator) || (separator + cause == "" && !AtBoundary(own))
  }

  lemma RepeatsExactlyWhenApart(own: string, separator: string, cause: string)
    ensures Own(own + separator + cause, Some(cause)) == own <==> SaysItsOwn(Repeats(own, separator), cause)
  {
    var rest := own + separator;
    SuffixIsStripped(rest, cause);
    SeparatorsAreWhatIsCleaned(own, separator);
    assert rest + cause == own + (separator + cause);
    if AtBoundary(rest) && separator + cause == "" {
      assert rest == own;
    }
    if rest + cause == own {
      PrefixCancels(own, separator + cause, "");
    }
  }

  /** What a layer's printed text is cleaned to is its own text exactly if it says its own. */
  lemma LayerSaysItsOwn(layer: Layer, cause: string)
    ensures Own(Printed(layer, cause), Some(cause)) == layer.own <==> SaysItsOwn(layer, cause)
  {
    match layer {
      case Plain(own) => PlainSaysItsOwn(own, cause);
      case Repeats(own, separator) => RepeatsExactlyWhenApart(own, separator, cause);
    }
  }

  ghost predicate SaysItsOwnAt(layers: seq<Layer>, leaf: string, i: nat)
    requires i < |layers|
  {
    SaysItsOwn(layers[i], Built(layers[i + 1..], leaf).text)
  }

  ghost predicate AllSayTheirOwn(layers: seq<Layer>, leaf: string) {
    forall i: nat :: i < |layers| ==> SaysItsOwnAt(layers, leaf, i)
  }

  lemma FirstSaysAndRest(layers: seq<Layer>, leaf: string)
    requires layers != []
    ensures AllSayTheirOwn(layers, leaf) <==> SaysItsOwnAt(layers, leaf, 0) && AllSayTheirOwn(layers[1..], leaf)
  {
    var rest := layers[1..];
    forall i: nat | i < |rest| ensures SaysItsOwnAt(rest, leaf, i) == SaysItsOwnAt(layers, leaf, i + 1) {
      assert rest[i + 1..] == layers[i + 2..];
    }
    if AllSayTheirOwn(layers[1..], leaf) && SaysItsOwnAt(layers, leaf, 0) {
      forall i: nat | i < |layers| ensures SaysItsOwnAt(layers, leaf, i) {
        assert i > 0 ==> SaysItsOwnAt(rest, leaf, i - 1);
      }
    }
  }

  /** Whatever its layers print, the parts of a line are what each layer says of its own exactly if each one
      says its own. */
  lemma {:induction false} PartsExactlyTheirOwn(layers: seq<Layer>, leaf: string)
    ensures Owns(Built(layers, leaf)) == Said(layers, leaf) <==> AllSayTheirOwn(layers, leaf)
  {
    if layers != [] {
      var cause := Built(layers[1..], leaf);
      PartsExactlyTheirOwn(layers[1..], leaf);
      FirstSaysAndRest(layers, leaf);
      LayerSaysItsOwn(layers[0], cause.text);
      var owns, said := Owns(Built(layers, leaf)), Said(layers, leaf);
      assert owns[1..] == Owns(cause) && said[1..] == Said(layers[1..], leaf);
      assert owns[0] == Own(Printed(layers[0], cause.text), Some(cause.text)) && said[0] == layers[0].own;
    }
  }

  /** A text of its own, that ends in neither blank space nor a colon, is told from its cause's by a colon, by a
      space, and by both; and without either it is not. */
  lemma ColonAndSpaceTellApart(own: string, cause: string)
    requires own != "" && Trimmed(own) && !Ends(own, ':')
    ensures Own(own + ":" + cause, Some(cause)) == own
    ensures Own(own + " " + cause, Some(cause)) == own
    ensures Own(own + ": " + cause, Some(cause)) == own
    ensures Own(own + cause, Some(cause)) == own + cause
    ensures Own(cause, Some(cause)) == ""
  {
    assert ColonAt(":", 0) && ColonAt(": ", 0);
    RepeatsExactlyWhenApart(own, ":", cause);
    RepeatsExactlyWhenApart(own, " ", cause);
    RepeatsExactlyWhenApart(own, ": ", cause);
    SuffixIsStripped(own, cause);
    SuffixIsStripped("", cause);
    assert "" + cause == cause;
  }

  /** A layer whose text runs into its cause's is not taken apart, and one that ends in a colon, with a space
      after it, loses the colon. */
  lemma WordsAndColonsStay()
    ensures Own("re" + "" + "disk full", Some("disk full")) != "re"
    ensures Own("tile 3:" + " " + "disk full", Some("disk full")) != "tile 3:"
  {
    RepeatsExactlyWhenApart("re", "", "disk full");
    RepeatsExactlyWhenApart("tile 3:", " ", "disk full");
    assert "re" + "" == "re";
  }

  /** Every layer that repeats its cause sets it apart. */
  ghost predicate SetApart(layers: seq<Layer>) {
    forall i :: 0 <= i < |layers| && layers[i].Repeats? ==> Separates(layers[i].own, layers[i].separator)
  }

  /** A layer's own text that happens to end as its cause's, at a boundary. */
  ghost predicate LooksRepeated(own: string, cause: string) {
    own != "" && exists rest: string :: own == rest + cause && AtBoundary(rest)
  }

  /** A layer that prints alone, over a cause its own text ends like. */
  ghost predicate Misread(layers: seq<Layer>, leaf: string, i: nat)
    requires i < |layers|
  {
    layers[i].Plain? && LooksRepeated(layers[i].own, Built(layers[i + 1..], leaf).text)
  }

  ghost predicate AnyMisread(layers: seq<Layer>, leaf: string) {
    exists i :: 0 <= i < |layers| && Misread(layers, leaf, i)
  }

  lemma MisreadFirstOrAfter(layers: seq<Layer>, leaf: string)
    requires layers != []
    ensures AnyMisread(layers, leaf) <==> Misread(layers, leaf, 0) || AnyMisread(layers[1..], leaf)
  {
    var rest := layers[1..];
    forall i: nat | i < |rest| ensures Misread(rest, leaf, i) == Misread(layers, leaf, i + 1) {
      assert rest[i + 1..] == layers[i + 2..];
    }
    if AnyMisread(layers, leaf) && !Misread(layers, leaf, 0) {
      var i :| 0 <= i < |layers| && Misread(layers, leaf, i);
      assert Misread(rest, leaf, i - 1);
    }
    if AnyMisread(rest, leaf) {
      var i :| 0 <= i < |rest| && Misread(rest, leaf, i);
      assert Misread(layers, leaf, i + 1);
    }
  }

  lemma CleanedIsShorter(rest: string)
    requires AtBoundary(rest) && rest != ""
    ensures |Cleaned(rest)| < |rest|
  {
    var off := TrimEndSplits(rest);
    var inner := TrimEndSplits(StripColon(TrimEnd(rest)));
    if Ends(rest, ':') {
      assert Trimmed(rest);
    } else {
      assert off != "";
    }
  }

  lemma CleanedIsNoLonger(rest: string)
    ensures |Cleaned(rest)| <= |rest|
  {
    var off := TrimEndSplits(rest);
    var inner := TrimEndSplits(StripColon(TrimEnd(rest)));
  }

  /** A layer set apart from its cause says its own. */
  lemma RepeatsSaysItsOwn(own: string, separator: string, cause: string)
    requires Separates(own, separator)
    ensures Own(own + separator + cause, Some(cause)) == own
  {
    var text := own + separator + cause;
    assert text == (own + separator) + cause;
    SuffixIsStripped(own + separator, cause);
    SeparatorIsCleaned(own, separator);
  }

  /** A layer that prints alone says its own, or less where it looks as if it repeats its cause. */
  lemma PlainSaysItsOwn(own: string, cause: string)
    ensures |Own(own, Some(cause))| <= |own|
    ensures Own(own, Some(cause)) == own <==> !LooksRepeated(own, cause)
    ensures LooksRepeated(own, cause) ==> |Own(own, Some(cause))| < |own|
  {
    var rest := StripSuffix(own, cause);
    if before: string :| own == before + cause {
      SuffixIsStripped(before, cause);
    }
    if rest.Some? {
      CleanedIsNoLonger(rest.value);
      if AtBoundary(rest.value) {
        if rest.value != "" {
          CleanedIsShorter(rest.value);
        }
      } else if LooksRepeated(own, cause) {
        var before: string :| own == before + cause && AtBoundary(before);
        SuffixIsStripped(before, cause);
      }
    }
  }

  /** A layer's part of the line, its separator included. */
  ghost function Weight(part: string): nat { if part == "" then 0 else |part| + 2 }

  ghost function Weights(parts: seq<string>): nat {
    if parts == [] then 0 else Weight(parts[0]) + Weights(parts[1..])
  }

  /** A line is as long as its parts and what joins them. */
  lemma {:induction false} JoinLength(parts: seq<string>)
    ensures Weight(Join(parts)) == Weights(parts)
  {
    if parts != [] {
      JoinLength(parts[1..]);
    }
  }

  /** The parts printed are those said, except where a layer is misread, which makes them less. */
  lemma {:induction false} PartsAreSaid(layers: seq<Layer>, leaf: string)
    requires SetApart(layers)
    ensures !AnyMisread(layers, leaf) ==> Owns(Built(layers, leaf)) == Said(layers, leaf)
    ensures AnyMisread(layers, leaf) ==> Weights(Owns(Built(layers, leaf))) < Weights(Said(layers, leaf))
  {
    if layers != [] {
      var layer, cause := layers[0], Built(layers[1..], leaf);
      PartsAreSaid(layers[1..], leaf);
      MisreadFirstOrAfter(layers, leaf);
      match layer {
        case Plain(own) => PlainSaysItsOwn(own, cause.text);
        case Repeats(own, separator) => RepeatsSaysItsOwn(own, separator, cause.text);
      }
      assert Owns(Built(layers, leaf))[1..] == Owns(cause);
      assert Said(layers, leaf)[1..] == Said(layers[1..], leaf);
    }
  }

  /** Where every layer that repeats its cause sets it apart, the joined line is what each says of its own exactly
      if no layer that prints alone ends as its cause does. */
  lemma EachMessageOnce(layers: seq<Layer>, leaf: string)
    requires SetApart(layers)
    ensures Join(Owns(Built(layers, leaf))) == Join(Said(layers, leaf)) <==> !AnyMisread(layers, leaf)
  {
    PartsAreSaid(layers, leaf);
    JoinLength(Owns(Built(layers, leaf)));
    JoinLength(Said(layers, leaf));
  }

  lemma JoinTwo(a: string, b: string)
    requires a != "" && b != ""
    ensures Join([a, b]) == a + ": " + b
  {
    assert [b][1..] == [];
    assert Join([b]) == b;
    assert [a, b][1..] == [b];
  }

  /** A layer over an error with no cause, that prints only its own text and ends as that error does, loses
      that end. */
  lemma OneMisread(before: string, leaf: string)
    requires AtBoundary(before) && Cleaned(before) != "" && before != "" && leaf != ""
    ensures var layers := [Plain(before + leaf)];
      && SetApart(layers) && AnyMisread(layers, leaf)
      && Join(Owns(Built(layers, leaf))) == Cleaned(before) + ": " + leaf
      && Join(Said(layers, leaf)) == before + leaf + ": " + leaf
  {
    var layers := [Plain(before + leaf)];
    assert layers[1..] == [];
    assert LooksRepeated(before + leaf, leaf) && Misread(layers, leaf, 0);
    SuffixIsStripped(before, leaf);
    assert Owns(Built(layers, leaf)) == [Cleaned(before), leaf];
    assert Said(layers, leaf) == [before + leaf, leaf];
    JoinTwo(Cleaned(before), leaf);
    JoinTwo(before + leaf, leaf);
  }

  lemma CannotReadIsCleaned()
    ensures Cleaned("cannot read: ") == "cannot read"
  {
    assert "cannot read: " == "cannot read:" + " ";
    TrimEndOf("cannot read:", " ");
    assert StripColon("cannot read:") == "cannot read";
  }

  /** "cannot read: disk full", which says it all itself, over "disk full". */
  lemma DiskFullIsMisread()
    ensures Own("cannot read: " + "disk full", Some("disk full")) == "cannot read"
    ensures var layers, leaf := [Plain("cannot read: " + "disk full")], "disk full";
      && SetApart(layers) && AnyMisread(layers, leaf)
      && Join(Owns(Built(layers, leaf))) == "cannot read" + ": " + "disk full"
      && Join(Said(layers, leaf)) == "cannot read: " + "disk full" + ": " + "disk full"
  {
    OneMisread("cannot read: ", "disk full");
    CannotReadIsCleaned();
    SuffixIsStripped("cannot read: ", "disk full");
  }
}
