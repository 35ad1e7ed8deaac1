// users.txt as authenticate in server_tls_final.c writes it with fprintf and reads it back with
// fgets and sscanf.
module UserText {
  datatype Record = Record(name: string, password: string)

  // What sscanf(line, "%s %s", ...) does to a destination: it leaves it alone when the line has
  // no such word, and writes past its end when the word does not fit.
  datatype Field = Unset | Word(text: string) | Overflow

  datatype Fields = Fields(name: Field, password: Field)

  const LINE_SIZE: nat := 100  // char line[100]
  const FIELD_SIZE: nat := 50  // char file_user[50], file_pass[50]

  predicate IsSpace(c: char)
  {
    c as int == 32 || 9 <= c as int <= 13
  }

  predicate NoSpace(s: string)
  {
    forall i :: 0 <= i < |s| ==> !IsSpace(s[i])
  }

  // fprintf(file, "%s %s\n", name, password)
  function Print(r: Record): string
  {
    r.name + " " + r.password + "\n"
  }

  function PrintAll(records: seq<Record>): string
  {
    if records == [] then "" else Print(records[0]) + PrintAll(records[1..])
  }

  // The number of characters fgets takes: up to and including a newline, at most `limit`.
  function LineLength(text: string, limit: nat): (n: nat)
    ensures n <= |text| && n <= limit && (text != "" && limit > 0 ==> n > 0)
  {
    if text == "" || limit == 0 then 0
    else if text[0] == '\n' then 1
    else 1 + LineLength(text[1..], limit - 1)
  }

  function Lines(text: string): seq<string>
    decreases |text|
  {
    if text == "" then []
    else
      var n := LineLength(text, LINE_SIZE - 1);
      [text[..n]] + Lines(text[n..])
  }

  function SkipSpace(text: string): (rest: string)
    ensures |rest| <= |text| && (rest != "" ==> !IsSpace(rest[0]))
  {
    if text != "" && IsSpace(text[0]) then SkipSpace(text[1..]) else text
  }

  function TokenLength(text: string): (n: nat)
    ensures n <= |text| && NoSpace(text[..n]) && (text != "" && !IsSpace(text[0]) ==> n > 0)
  {
    if text == "" || IsSpace(text[0]) then 0 else 1 + TokenLength(text[1..])
  }

  function Convert(token: string): Field
  {
    if token == "" then Unset else if |token| < FIELD_SIZE then Word(token) else Overflow
  }

  function Scan(line: string): (f: Fields)
    ensures f.name.Word? ==> f.name.text != "" && NoSpace(f.name.text) && |f.name.text| < FIELD_SIZE
    ensures f.password.Word? ==>
      f.password.text != "" && NoSpace(f.password.text) && |f.password.text| < FIELD_SIZE
  {
    var first := SkipSpace(line);
    var n := TokenLength(first);
    var second := SkipSpace(first[n..]);
    Fields(Convert(first[..n]), Convert(second[..TokenLength(second)]))
  }

  function ScanAll(lines: seq<string>): (fields: seq<Fields>)
    ensures |fields| == |lines| && forall k :: 0 <= k < |lines| ==> fields[k] == Scan(lines[k])
  {
    seq(|lines|, k requires 0 <= k < |lines| => Scan(lines[k]))
  }

  function Read(text: string): seq<Fields>
  {
    ScanAll(Lines(text))
  }

  // Names and passwords that survive: not empty, without white space, each short enough for its
  // buffer and both together for one line.
  predicate Storable(r: Record)
  {
    r.name != "" && r.password != "" && NoSpace(r.name) && NoSpace(r.password)
    && |r.name| < FIELD_SIZE && |r.password| < FIELD_SIZE && |r.name| + |r.password| <= LINE_SIZE - 3
  }

  // ---- Lines ----

  function Concat(lines: seq<string>): string
  {
    if lines == [] then "" else lines[0] + Concat(lines[1..])
  }

  // A newline can only be the last character, and a line stops short of the limit only at a
  // newline or at the end of the file.
  predicate IsLine(line: string, last: bool)
  {
    && 0 < |line| <= LINE_SIZE - 1 && (forall k :: 0 <= k < |line| - 1 ==> line[k] != '\n')
    && (last || line[|line| - 1] == '\n' || |line| == LINE_SIZE - 1)
  }

  lemma {:induction false} LineIsMaximal(text: string, limit: nat)
    ensures var n := LineLength(text, limit);
      && (forall k :: 0 <= k < n - 1 ==> text[k] != '\n')
      && (0 < n < |text| && n < limit ==> text[n - 1] == '\n')
  {
    if text != "" && limit > 0 && text[0] != '\n' {
      LineIsMaximal(text[1..], limit - 1);
      assert forall k :: 0 < k < |text| ==> text[k] == text[1..][k - 1];
    }
  }

  // fgets takes any file apart into such lines and loses nothing.
  lemma {:induction false} LinesPartition(text: string)
    ensures Concat(Lines(text)) == text
    ensures forall k :: 0 <= k < |Lines(text)| ==> IsLine(Lines(text)[k], k == |Lines(text)| - 1)
    decreases |text|
  {
    if text != "" {
      var n := LineLength(text, LINE_SIZE - 1);
      LineIsMaximal(text, LINE_SIZE - 1);
      LinesPartition(text[n..]);
      assert text == text[..n] + text[n..];
      assert Lines(text)[1..] == Lines(text[n..]);
      assert forall k :: 0 < k < |Lines(text)| ==> Lines(text)[k] == Lines(text[n..])[k - 1];
      assert IsLine(text[..n], n == |text|);
    }
  }

  predicate Terminated(text: string)
  {
    text == "" || text[|text| - 1] == '\n'
  }

  lemma {:induction false} FirstLineOfConcat(a: string, b: string, limit: nat)
    requires a != "" && Terminated(a)
    ensures LineLength(a + b, limit) == LineLength(a, limit)
  {
    if limit > 0 && a[0] != '\n' {
      assert (a + b)[1..] == a[1..] + b;
      FirstLineOfConcat(a[1..], b, limit - 1);
    }
  }

  // What is appended to a terminated file does not change how the rest of it is read.
  lemma {:induction false} LinesConcat(a: string, b: string)
    requires Terminated(a)
    ensures Lines(a + b) == Lines(a) + Lines(b)
    decreases |a|
  {
    if a == "" {
      assert a + b == b;
    } else {
      var n := LineLength(a, LINE_SIZE - 1);
      FirstLineOfConcat(a, b, LINE_SIZE - 1);
      assert (a + b)[..n] == a[..n] && (a + b)[n..] == a[n..] + b;
      LinesConcat(a[n..], b);
    }
  }

  // ---- Words ----

  predicate Blank(s: string)
  {
    forall k :: 0 <= k < |s| ==> IsSpace(s[k])
  }

  // line[i..j] is the first word of line[from..]; it is empty only if there is none.
  predicate FirstWord(line: string, from: nat, i: nat, j: nat)
  {
    && from <= i <= j <= |line| && Blank(line[from..i]) && NoSpace(line[i..j])
    && (j < |line| ==> i < j && IsSpace(line[j]))
  }

  lemma {:induction false} SkipSpaceIsSuffix(text: string) returns (i: nat)
    ensures i <= |text| && SkipSpace(text) == text[i..] && Blank(text[..i])
  {
    i := 0;
    if text != "" && IsSpace(text[0]) {
      var k := SkipSpaceIsSuffix(text[1..]);
      i := k + 1;
      assert text[1..][k..] == text[i..] && text[..i] == [text[0]] + text[1..][..k];
    }
  }

  lemma {:induction false} TokenIsMaximal(text: string)
    ensures TokenLength(text) < |text| ==> IsSpace(text[TokenLength(text)])
  {
    if text != "" && !IsSpace(text[0]) {
      TokenIsMaximal(text[1..]);
    }
  }

  lemma NextWord(line: string, from: nat) returns (i: nat, j: nat)
    requires from <= |line|
    ensures FirstWord(line, from, i, j)
    ensures SkipSpace(line[from..]) == line[i..] && TokenLength(line[i..]) == j - i
  {
    var skipped := SkipSpaceIsSuffix(line[from..]);
    i := from + skipped;
    var rest := SkipSpace(line[from..]);
    assert line[from..][skipped..] == line[i..] && line[from..][..skipped] == line[from..i];
    TokenIsMaximal(rest);
    j := i + TokenLength(rest);
    assert rest[..j - i] == line[i..j];
  }

  // On any line the fields are the first two words: blanks before and between them are skipped,
  // whatever follows the second is ignored, and a word that is not there leaves its field unset.
  lemma ScanTakesTheFirstTwoWords(line: string) returns (i: nat, j: nat, i': nat, j': nat)
    ensures FirstWord(line, 0, i, j) && FirstWord(line, j, i', j')
    ensures Scan(line) == Fields(Convert(line[i..j]), Convert(line[i'..j']))
  {
    i, j := NextWord(line, 0);
    assert line[0..] == line;
    i', j' := NextWord(line, j);
    ScanAt(line, i, j, i', j');
  }

  lemma ScanAt(line: string, i: nat, j: nat, i': nat, j': nat)
    requires i <= j <= |line| && SkipSpace(line) == line[i..] && TokenLength(line[i..]) == j - i
    requires i' <= j' <= |line| && SkipSpace(line[j..]) == line[i'..] && TokenLength(line[i'..]) == j' - i'
    ensures Scan(line) == Fields(Convert(line[i..j]), Convert(line[i'..j']))
  {
    Cut(line, i, j);
    Cut(line, i', j');
    var first := SkipSpace(line);
    var n := TokenLength(first);
    assert first[..n] == line[i..j] && first[n..] == line[j..];
    var second := SkipSpace(first[n..]);
    assert second == line[i'..] && second[..TokenLength(second)] == line[i'..j'];
  }

  lemma Cut(line: string, i: nat, j: nat)
    requires i <= j <= |line|
    ensures line[i..][..j - i] == line[i..j] && line[i..][j - i..] == line[j..]
  {
  }

  // ---- One record ----

  function Printed(r: Record): Fields
  {
    Fields(Word(r.name), Word(r.password))
  }

  lemma {:induction false} FirstLine(a: string, rest: string, limit: nat)
    requires (forall i :: 0 <= i < |a| ==> a[i] != '\n') && |a| + 1 <= limit
    ensures LineLength(a + "\n" + rest, limit) == |a| + 1
  {
    if a != "" {
      assert (a + "\n" + rest)[1..] == a[1..] + "\n" + rest;
      FirstLine(a[1..], rest, limit - 1);
    }
  }

  lemma {:induction false} FirstToken(a: string, rest: string)
    requires NoSpace(a) && rest != "" && IsSpace(rest[0])
    ensures TokenLength(a + rest) == |a|
  {
    if a != "" {
      assert (a + rest)[1..] == a[1..] + rest;
      FirstToken(a[1..], rest);
    }
  }

  lemma ScanPrinted(r: Record)
    requires Storable(r)
    ensures Scan(Print(r)) == Printed(r)
  {
    var line, tail := Print(r), " " + r.password + "\n";
    assert line == r.name + tail;
    assert line[0] == r.name[0] && SkipSpace(line) == line;
    FirstToken(r.name, tail);
    assert line[|r.name|..] == tail && tail[1..] == r.password + "\n";
    assert SkipSpace(tail) == SkipSpace(tail[1..]) == r.password + "\n";
    FirstToken(r.password, "\n");
  }

  lemma LinesOfPrinted(r: Record, rest: string)
    requires Storable(r)
    ensures Lines(Print(r) + rest) == [Print(r)] + Lines(rest)
  {
    var a, text := r.name + " " + r.password, Print(r) + rest;
    assert text == a + "\n" + rest;
    forall i | 0 <= i < |a| ensures a[i] != '\n' {
      if i < |r.name| { assert a[i] == r.name[i]; }
      if i > |r.name| { assert a[i] == r.password[i - |r.name| - 1]; }
    }
    FirstLine(a, rest, LINE_SIZE - 1);
    assert text[..|a| + 1] == Print(r) && text[|a| + 1..] == rest;
  }

  // ---- A file of records ----

  function Stored(records: seq<Record>): (fields: seq<Fields>)
    ensures |fields| == |records|
    ensures forall k :: 0 <= k < |records| ==> fields[k] == Printed(records[k])
  {
    seq(|records|, k requires 0 <= k < |records| => Printed(records[k]))
  }

  ghost predicate AllStorable(records: seq<Record>)
  {
    forall k :: 0 <= k < |records| ==> Storable(records[k])
  }

  lemma ReadRecord(r: Record, rest: string)
    requires Storable(r)
    ensures Read(Print(r) + rest) == [Printed(r)] + Read(rest)
  {
    LinesOfPrinted(r, rest);
    ScanPrinted(r);
    assert ScanAll([Print(r)] + Lines(rest)) == [Scan(Print(r))] + ScanAll(Lines(rest));
  }

  lemma StoredCons(records: seq<Record>)
    requires records != []
    ensures Stored(records) == [Printed(records[0])] + Stored(records[1..])
  {
  }

  lemma {:induction false} StorableFileReadsBack(records: seq<Record>)
    requires AllStorable(records)
    ensures Read(PrintAll(records)) == Stored(records)
  {
    if records != [] {
      assert forall k :: 0 <= k < |records[1..]| ==> records[1..][k] == records[k + 1];
      StorableFileReadsBack(records[1..]);
      ReadRecord(records[0], PrintAll(records[1..]));
      StoredCons(records);
    }
  }

  function Newlines(text: string): nat
  {
    if text == "" then 0 else (if text[0] == '\n' then 1 else 0) + Newlines(text[1..])
  }

  lemma {:induction false} NewlinesConcat(a: string, b: string)
    ensures Newlines(a + b) == Newlines(a) + Newlines(b)
  {
    if a == "" {
      assert a + b == b;
    } else {
      assert (a + b)[1..] == a[1..] + b;
      NewlinesConcat(a[1..], b);
    }
  }

  lemma {:induction false} LineHasOneNewline(text: string, limit: nat)
    ensures Newlines(text[..LineLength(text, limit)]) <= 1
  {
    var n := LineLength(text, limit);
    if n > 0 {
      assert text[..n][1..] == text[1..][..n - 1];
      if text[0] == '\n' {
        assert text[..n][1..] == "";
      } else {
        LineHasOneNewline(text[1..], limit - 1);
      }
    }
  }

  lemma {:induction false} LinesCoverNewlines(text: string)
    ensures |Lines(text)| >= Newlines(text)
    decreases |text|
  {
    if text != "" {
      var n := LineLength(text, LINE_SIZE - 1);
      assert text == text[..n] + text[n..];
      NewlinesConcat(text[..n], text[n..]);
      LineHasOneNewline(text, LINE_SIZE - 1);
      LinesCoverNewlines(text[n..]);
    }
  }

  lemma {:induction false} OneNewlineEach(records: seq<Record>)
    ensures Newlines(PrintAll(records)) >= |records|
  {
    if records != [] {
      OneNewlineEach(records[1..]);
      NewlinesConcat(Print(records[0]), PrintAll(records[1..]));
      NewlinesConcat(records[0].name + " " + records[0].password, "\n");
    }
  }

  // A record too long for one line leaves a remainder that reads as one line too many.
  lemma LongRecordSpills(r: Record, rest: seq<Record>)
    requires NoSpace(r.name) && NoSpace(r.password) && |Print(r)| > LINE_SIZE - 1
    ensures |Lines(Print(r) + PrintAll(rest))| > 1 + |rest|
  {
    var text, n := Print(r) + PrintAll(rest), LineLength(Print(r) + PrintAll(rest), LINE_SIZE - 1);
    var left := Print(r)[n..];
    assert text[n..] == left + PrintAll(rest);
    var m := |left| - 1;
    assert left == left[..m] + "\n";
    NewlinesConcat(left[..m], "\n");
    NewlinesConcat(left, PrintAll(rest));
    OneNewlineEach(rest);
    LinesCoverNewlines(text[n..]);
  }

  // The first line starts with the first record, so scanning it can only give that record back
  // if its name and password are words that fit their buffers.
  lemma FirstRecordIsWords(records: seq<Record>)
    requires records != [] && Read(PrintAll(records)) == Stored(records)
    ensures records[0].name != "" && records[0].password != ""
    ensures NoSpace(records[0].name) && NoSpace(records[0].password)
    ensures |records[0].name| < FIELD_SIZE && |records[0].password| < FIELD_SIZE
  {
    assert Read(PrintAll(records))[0] == Stored(records)[0];
  }

  lemma {:induction false} ReadBackMeansStorable(records: seq<Record>)
    requires Read(PrintAll(records)) == Stored(records)
    ensures AllStorable(records)
  {
    if records != [] {
      var r, rest := records[0], records[1..];
      FirstRecordIsWords(records);
      if |Print(r)| > LINE_SIZE - 1 {
        LongRecordSpills(r, rest);
      }
      ReadRecord(r, PrintAll(rest));
      StoredCons(records);
      assert Read(PrintAll(rest)) == Read(PrintAll(records))[1..] == Stored(records)[1..] == Stored(rest);
      ReadBackMeansStorable(rest);
      assert forall k :: 0 < k < |records| ==> records[k] == rest[k - 1];
    }
  }

  // A file of records is read back as exactly those records when, and only when, all of them are
  // storable.
  lemma FileRoundTrip(records: seq<Record>)
    ensures Read(PrintAll(records)) == Stored(records) <==> AllStorable(records)
  {
    if AllStorable(records) {
      StorableFileReadsBack(records);
    }
    if Read(PrintAll(records)) == Stored(records) {
      ReadBackMeansStorable(records);
    }
  }

  lemma {:induction false} PrintAppend(records: seq<Record>, r: Record)
    ensures PrintAll(records + [r]) == PrintAll(records) + Print(r)
  {
    if records == [] {
      assert records + [r] == [r];
      assert PrintAll([r]) == Print(r) + PrintAll([r][1..]);
    } else {
      assert (records + [r])[1..] == records[1..] + [r];
      PrintAppend(records[1..], r);
    }
  }
}
