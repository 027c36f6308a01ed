/** The staff list as text: how a report prints it and how the console reads one back. */
module StaffList {

  predicate IsBlank(c: char) {
    c == ' ' || c == '\t'
  }

  function TrimLeft(s: string): string {
    if s != [] && IsBlank(s[0]) then TrimLeft(s[1..]) else s
  }

  function TrimRight(s: string): string {
    if s != [] && IsBlank(s[|s| - 1]) then TrimRight(s[..|s| - 1]) else s
  }

  function Trim(s: string): string {
    TrimRight(TrimLeft(s))
  }

  /** The length of the text before the first comma. */
  function BeforeComma(s: string): (k: nat)
    ensures k <= |s| && ',' !in s[..k] && (k < |s| ==> s[k] == ',')
  {
    if s == [] || s[0] == ',' then 0 else 1 + BeforeComma(s[1..])
  }

  /** The trimmed item, unless nothing is left of it. */
  function Item(s: string): seq<string> {
    if Trim(s) == [] then [] else [Trim(s)]
  }

  /** The trimmed, non-empty items between the commas of a text. */
  function Split(text: string): seq<string> {
    if text == [] then []
    else
      var k := BeforeComma(text);
      Item(text[..k]) + (if k < |text| then Split(text[k + 1..]) else [])
  }

  /** The list printed with ", " between its members. */
  function Join(ids: seq<string>): string {
    if ids == [] then ""
    else if |ids| == 1 then ids[0]
    else Join(ids[..|ids| - 1]) + ", " + ids[|ids| - 1]
  }

  /** What the printer and the reader agree on: an item is not empty, holds no comma, and
      neither begins nor ends with a blank. */
  ghost predicate Clean(s: string) {
    s != [] && ',' !in s && s[0] != ' ' && s[0] != '\t' && s[|s| - 1] != ' ' && s[|s| - 1] != '\t'
  }

  /** Nothing but spaces and tabs. */
  ghost predicate Padding(s: string) {
    forall i :: 0 <= i < |s| ==> s[i] == ' ' || s[i] == '\t'
  }

  ghost predicate AllClean(ids: seq<string>) {
    forall i :: 0 <= i < |ids| ==> Clean(ids[i])
  }

  lemma TrimLeftIsSuffix(s: string) returns (k: nat)
    ensures k <= |s| && TrimLeft(s) == s[k..]
    ensures TrimLeft(s) != [] ==> !IsBlank(TrimLeft(s)[0])
  {
    if s != [] && IsBlank(s[0]) {
      var j := TrimLeftIsSuffix(s[1..]);
      k := j + 1;
    } else {
      k := 0;
    }
  }

  lemma TrimRightIsPrefix(s: string) returns (k: nat)
    ensures k <= |s| && TrimRight(s) == s[..k]
    ensures TrimRight(s) != [] ==> !IsBlank(TrimRight(s)[|TrimRight(s)| - 1])
  {
    if s != [] && IsBlank(s[|s| - 1]) {
      k := TrimRightIsPrefix(s[..|s| - 1]);
    } else {
      k := |s|;
    }
  }

  lemma ItemIsClean(s: string)
    requires ',' !in s
    ensures AllClean(Item(s))
  {
    var j := TrimLeftIsSuffix(s);
    var k := TrimRightIsPrefix(TrimLeft(s));
  }

  /** Whatever the text, every item read is non-empty, trimmed and comma-free. */
  lemma {:induction false} SplitIsClean(text: string)
    ensures AllClean(Split(text))
  {
    if text != [] {
      var k := BeforeComma(text);
      ItemIsClean(text[..k]);
      if k < |text| {
        SplitIsClean(text[k + 1..]);
      }
    }
  }

  /** A text without commas is one item, and a comma always separates. These two laws determine
      the reader on every input. */
  lemma SplitOfOneItem(text: string)
    requires ',' !in text
    ensures Split(text) == Item(text)
  {
    assert BeforeComma(text) == |text|;
    assert text[..|text|] == text;
  }

  lemma {:induction false} TrimLeftPadding(pad: string, s: string)
    requires Padding(pad)
    ensures TrimLeft(pad + s) == TrimLeft(s)
  {
    if pad == [] {
      assert pad + s == s;
    } else {
      assert (pad + s)[1..] == pad[1..] + s;
      TrimLeftPadding(pad[1..], s);
    }
  }

  lemma {:induction false} TrimRightPadding(s: string, pad: string)
    requires Padding(pad)
    ensures TrimRight(s + pad) == TrimRight(s)
  {
    if pad == [] {
      assert s + pad == s;
    } else {
      assert (s + pad)[..|s + pad| - 1] == s + pad[..|pad| - 1];
      TrimRightPadding(s, pad[..|pad| - 1]);
    }
  }

  /** A padded identifier is read as the identifier, whatever spaces and tabs are around it. */
  lemma PaddedIsTrimmed(l: string, id: string, r: string)
    requires Clean(id) && Padding(l) && Padding(r)
    ensures Split(l + id + r) == [id]
  {
    var text := l + id + r;
    assert text == l + (id + r);
    TrimLeftPadding(l, id + r);
    assert TrimLeft(id + r) == id + r by { assert (id + r)[0] == id[0]; }
    TrimRightPadding(id, r);
    assert TrimRight(id) == id;
    assert ',' !in text by {
      forall i | 0 <= i < |text| ensures text[i] != ',' {
        assert |l| <= i < |l| + |id| ==> text[i] == id[i - |l|];
        assert i < |l| ==> text[i] == l[i];
        assert |l| + |id| <= i ==> text[i] == r[i - |l| - |id|];
      }
    }
    SplitOfOneItem(text);
  }

  lemma {:induction false} TrimLeftEmpties(s: string)
    requires TrimLeft(s) == []
    ensures Padding(s)
  {
    if s != [] {
      TrimLeftEmpties(s[1..]);
      assert forall i :: 1 <= i < |s| ==> s[i] == s[1..][i - 1];
    }
  }

  lemma {:induction false} TrimRightEmpties(s: string)
    requires TrimRight(s) == []
    ensures Padding(s)
  {
    if s != [] {
      TrimRightEmpties(s[..|s| - 1]);
      assert forall i :: 0 <= i < |s| - 1 ==> s[i] == s[..|s| - 1][i];
    }
  }

  /** A text without commas is read as nothing exactly when it is all spaces and tabs. */
  lemma BlankIsNothing(text: string)
    requires ',' !in text
    ensures Split(text) == [] <==> Padding(text)
  {
    SplitOfOneItem(text);
    if Padding(text) {
      TrimLeftPadding(text, "");
      assert text + "" == text;
    } else if Trim(text) == [] {
      TrimRightEmpties(TrimLeft(text));
      var k := TrimLeftIsSuffix(text);
      if TrimLeft(text) == [] {
        TrimLeftEmpties(text);
      }
    }
  }

  lemma {:induction false} CommaAfter(item: string, rest: string)
    requires ',' !in item
    ensures BeforeComma(item + "," + rest) == |item|
  {
    if item != [] {
      CommaAfter(item[1..], rest);
      assert (item + "," + rest)[1..] == item[1..] + "," + rest;
    }
  }

  lemma Regroup<T>(a: seq<T>, b: seq<T>, c: seq<T>, d: seq<T>)
    requires d == b + c
    ensures a + d == a + b + c
  {
  }

  lemma Reassociate<T>(a: seq<T>, b: seq<T>, c: seq<T>, d: seq<T>, e: seq<T>)
    ensures a + b + c + d + e == a + b + (c + d + e)
  {
  }

  /** The reader takes the text before the first comma and goes on after it. */
  lemma SplitOff(item: string, rest: string)
    requires ',' !in item
    ensures Split(item + "," + rest) == Item(item) + Split(rest)
  {
    var text := item + "," + rest;
    assert text[..|item|] == item && text[|item| + 1..] == rest;
    CommaAfter(item, rest);
  }

  lemma SplitAtLaterComma(item: string, rest: string, b: string)
    requires ',' !in item && Split(rest + "," + b) == Split(rest) + Split(b)
    ensures Split(item + "," + rest + "," + b) == Split(item + "," + rest) + Split(b)
  {
    var later := rest + "," + b;
    Reassociate(item, ",", rest, ",", b);
    assert Split(item + "," + later) == Item(item) + Split(later) by { SplitOff(item, later); }
    assert Split(item + "," + rest) == Item(item) + Split(rest) by { SplitOff(item, rest); }
    Regroup(Item(item), Split(rest), Split(b), Split(later));
  }

  lemma CutAtComma(a: string) returns (item: string, rest: string)
    requires ',' in a
    ensures a == item + "," + rest && ',' !in item && |rest| < |a|
  {
    var k := BeforeComma(a);
    assert a == a[..k] + a[k..];
    item, rest := a[..k], a[k + 1..];
  }

  lemma {:induction false} SplitAtComma(a: string, b: string)
    ensures Split(a + "," + b) == Split(a) + Split(b)
    decreases |a|
  {
    if ',' in a {
      var item, rest := CutAtComma(a);
      SplitAtComma(rest, b);
      SplitAtLaterComma(item, rest, b);
    } else {
      SplitOff(a, b);
      SplitOfOneItem(a);
    }
  }

  lemma CleanItem(id: string)
    requires Clean(id)
    ensures Item(id) == [id] && Item(" " + id) == [id]
  {
    assert (" " + id)[1..] == id;
  }

  /** One more printed identifier is one more identifier read. */
  lemma SplitOneMore(text: string, id: string)
    requires Clean(id)
    ensures Split(text + ", " + id) == Split(text) + [id]
  {
    CleanItem(id);
    SplitOfOneItem(" " + id);
    SplitAtComma(text, " " + id);
    assert text + ", " + id == text + "," + (" " + id);
  }

  lemma LastApart<T>(xs: seq<T>)
    requires xs != []
    ensures xs == xs[..|xs| - 1] + [xs[|xs| - 1]]
  {
  }

  /** The printed form: one identifier is itself, and between two lists there is ", ". */
  lemma {:induction false} JoinMeans(a: seq<string>, b: seq<string>)
    requires a != [] && b != []
    ensures Join(a + b) == Join(a) + ", " + Join(b)
    ensures Join([]) == "" && Join([a[0]]) == a[0]
    decreases |b|
  {
    var front, last := b[..|b| - 1], b[|b| - 1];
    assert (a + b)[..|a + b| - 1] == a + front;
    if front == [] {
      assert a + front == a;
    } else {
      JoinMeans(a, front);
      assert Join(a) + ", " + Join(front) + ", " + last == Join(a) + ", " + (Join(front) + ", " + last);
    }
  }

  /** Reading back a printed list returns the list, member for member and in order. */
  lemma {:induction false} RoundTrip(ids: seq<string>)
    requires AllClean(ids)
    ensures Split(Join(ids)) == ids
  {
    if |ids| == 1 {
      CleanItem(ids[0]);
      SplitOfOneItem(ids[0]);
    } else if |ids| > 1 {
      var front, last := ids[..|ids| - 1], ids[|ids| - 1];
      RoundTrip(front);
      assert Split(Join(front) + ", " + last) == front + [last] by {
        SplitOneMore(Join(front), last);
      }
      LastApart(ids);
    }
  }

  /** Hence printing what was read and reading it again changes nothing, for any text typed. */
  lemma ReadingIsStable(text: string)
    ensures Split(Join(Split(text))) == Split(text)
  {
    SplitIsClean(text);
    RoundTrip(Split(text));
  }

  /** A printed list comes back as it was exactly when each of its identifiers is clean. */
  lemma RoundTripIsExact(ids: seq<string>)
    ensures Split(Join(ids)) == ids <==> AllClean(ids)
  {
    SplitIsClean(Join(ids));
    if AllClean(ids) {
      RoundTrip(ids);
    }
  }

  /** So a padded identifier does not come back: it is trimmed. */
  lemma PaddedIdIsNotReturned()
    ensures Split(Join([" A"])) != [" A"]
  {
    RoundTripIsExact([" A"]);
    assert !Clean([" A"][0]);
  }

  /** The report's loop over the staff identifiers. */
  method PrintStaff(staff: seq<string>) returns (line: string)
    ensures line == Join(staff)
  {
    line := "";
    for i := 0 to |staff|
      invariant line == Join(staff[..i]) + (if 0 < i < |staff| then ", " else "")
    {
      assert staff[..i + 1][..i] == staff[..i];
      line := line + staff[i];
      if i + 1 < |staff| {
        line := line + ", ";
      }
    }
    assert staff[..|staff|] == staff;
  }

  /** The console's loop: take the text up to the next comma off the stream, trim it, keep it if
      anything is left. */
  method SplitCommaList(text: string) returns (parts: seq<string>)
    ensures parts == Split(text)
  {
    parts := [];
    var stream := text;
    while stream != []
      invariant Split(text) == parts + Split(stream)
      decreases |stream|
    {
      var k := BeforeComma(stream);
      var item := Item(stream[..k]);
      var rest := if k < |stream| then stream[k + 1..] else [];
      Regroup(parts, item, Split(rest), Split(stream));
      parts := parts + item;
      stream := rest;
    }
  }
}
