/** The expect-string matcher of the call server (unix_source/calld/expectstr.c):
decodes the escapes of an expect string, skips input to its first character, and
slides a window over the input until the string appears. */
module ExpectString {

  const MAXLINE: nat := 4096

  // ---------------------------------------------------------------- the expect string

  datatype Decoded = Text(s: string) | Invalid | Unknown(c: char)

  /** \r is a carriage return and \s a space; nothing else may be escaped. */
  function Decode(s: string): Decoded {
    if s == "" then Text("")
    else if s[0] == '\\' then
      if |s| == 1 then Invalid
      else if s[1] == 'r' then Prepend('\r', Decode(s[2..]))
      else if s[1] == 's' then Prepend(' ', Decode(s[2..]))
      else Unknown(s[1])
    else Prepend(s[0], Decode(s[1..]))
  }

  function Prepend(c: char, d: Decoded): Decoded {
    match d
    case Text(s) => Text([c] + s)
    case _ => d
  }

  /** What the rest of an expect string adds to the text decoded so far. */
  function Resume(prefix: string, d: Decoded): Decoded {
    match d
    case Text(s) => Text(prefix + s)
    case _ => d
  }

  lemma ResumePrepend(prefix: string, c: char, d: Decoded)
    ensures Resume(prefix, Prepend(c, d)) == Resume(prefix + [c], d)
  {
    if d.Text? { assert prefix + ([c] + d.s) == prefix + [c] + d.s; }
  }

  lemma ResumeEnd(prefix: string, d: Decoded)
    requires d.Text? ==> d.s == ""
    ensures Resume(prefix, d) == if d.Text? then Text(prefix) else d
  {
    assert prefix + "" == prefix;
  }

  lemma DecodeEmpty()
    ensures Decode("") == Text("")
  {}

  lemma DecodeAt(s: string, i: nat)
    requires i < |s|
    ensures Decode(s[i..]) ==
            if s[i] != '\\' then Prepend(s[i], Decode(s[i + 1..]))
            else if i + 1 == |s| then Invalid
            else if s[i + 1] == 'r' then Prepend('\r', Decode(s[i + 2..]))
            else if s[i + 1] == 's' then Prepend(' ', Decode(s[i + 2..]))
            else Unknown(s[i + 1])
  {
    var t := s[i..];
    assert t[0] == s[i] && t[1..] == s[i + 1..];
    if i + 1 < |s| { assert t[1] == s[i + 1] && t[2..] == s[i + 2..]; }
  }

  function Encode(s: string): string {
    if s == "" then ""
    else (if s[0] == '\r' then "\\r" else if s[0] == ' ' then "\\s" else [s[0]]) + Encode(s[1..])
  }

  /** Every text without a backslash can be written as an expect string. */
  lemma {:induction false} DecodeEncode(s: string)
    requires '\\' !in s
    ensures Decode(Encode(s)) == Text(s)
  {
    if s != "" {
      DecodeEncode(s[1..]);
      var rest := Encode(s[1..]);
      if s[0] == '\r' {
        assert ("\\r" + rest)[2..] == rest;
      } else if s[0] == ' ' {
        assert ("\\s" + rest)[2..] == rest;
      } else {
        assert s[0] in s && ([s[0]] + rest)[1..] == rest;
      }
      assert s == [s[0]] + s[1..];
    }
  }

  /** After any text, a backslash is refused at the end of the string and before
      every character but r and s, whatever follows. */
  lemma {:induction false} DecodeRefuses(s: string, rest: string)
    requires '\\' !in s
    ensures Decode(Encode(s) + "\\" + rest) ==
            if rest == "" then Invalid
            else if rest[0] != 'r' && rest[0] != 's' then Unknown(rest[0])
            else Resume(s + [if rest[0] == 'r' then '\r' else ' '], Decode(rest[1..]))
  {
    var t := Encode(s) + "\\" + rest;
    if s == "" {
      assert t == "\\" + rest;
      assert |t| > 1 ==> t[1] == rest[0] && t[2..] == rest[1..];
    } else {
      DecodeRefuses(s[1..], rest);
      var u := Encode(s[1..]) + "\\" + rest;
      assert s[0] in s;
      if s[0] == '\r' { assert t == "\\r" + u && t[2..] == u; }
      else if s[0] == ' ' { assert t == "\\s" + u && t[2..] == u; }
      else { assert t == [s[0]] + u && t[1..] == u; }
      assert [s[0]] + s[1..] == s;
      if rest != "" && (rest[0] == 'r' || rest[0] == 's') {
        var c := [if rest[0] == 'r' then '\r' else ' '];
        assert [s[0]] + (s[1..] + c) == s + c;
        ResumeCons(s[0], s[1..] + c, Decode(rest[1..]));
      }
    }
  }

  lemma ResumeCons(c: char, prefix: string, d: Decoded)
    ensures Prepend(c, Resume(prefix, d)) == Resume([c] + prefix, d)
  {
    if d.Text? { assert [c] + (prefix + d.s) == [c] + prefix + d.s; }
  }

  // ---------------------------------------------------------------- occurrences

  predicate Occurs(p: string, input: string, k: nat) { k + |p| <= |input| && input[k..k + |p|] == p }

  predicate Leftmost(p: string, input: string, k: nat) {
    Occurs(p, input, k) && forall j :: 0 <= j < k ==> !Occurs(p, input, j)
  }

  predicate FirstChar(c: char, input: string, f: nat) { f < |input| && input[f] == c && c !in input[..f] }

  /** An occurrence starts with the first character. */
  lemma OccursAt(p: string, input: string, k: nat)
    requires p != ""
    ensures Occurs(p, input, k) ==> input[k] == p[0]
  {
    if Occurs(p, input, k) { assert input[k..k + |p|][0] == p[0]; }
  }

  // ---------------------------------------------------------------- the matcher

  /** Matched: 0 returned, `consumed` bytes read.  Refused: -1 with a message.
      ReadError: the input ended, which is fatal.  Overrun: the window would leave
      its buffer. */
  datatype Outcome = Matched(consumed: nat) | Refused(d: Decoded) | ReadError | Overrun

  method CopyExpect(ptr: string, expstr: array<char>) returns (d: Decoded, matchlen: nat)
    requires |ptr| < expstr.Length == MAXLINE
    modifies expstr
    ensures matchlen <= |ptr|
    ensures d == if Decode(ptr).Text? then Text(expstr[..matchlen]) else Decode(ptr)
    ensures d == Decode(ptr)
  {
    var i := 0;
    matchlen := 0;
    assert ptr[0..] == ptr && Resume("", Decode(ptr)) == Decode(ptr) && expstr[..0] == "";
    hide Decode, Prepend, Resume;
    while i < |ptr|
      invariant 0 <= matchlen <= i <= |ptr|
      invariant Decode(ptr) == Resume(expstr[..matchlen], Decode(ptr[i..]))
    {
      DecodeAt(ptr, i);
      ghost var before := expstr[..matchlen];
      var c := ptr[i];
      i := i + 1;
      if c == '\\' {
        if i == |ptr| {
          assert Decode(ptr) == Invalid by { ResumeEnd(before, Invalid); }
          return Invalid, 0;
        }
        c := ptr[i];
        i := i + 1;
        if c == 'r' { c := '\r'; }
        else if c == 's' { c := ' '; }
        else {
          assert Decode(ptr) == Unknown(c) by { ResumeEnd(before, Unknown(c)); }
          return Unknown(c), 0;
        }
      }
      ResumePrepend(before, c, Decode(ptr[i..]));
      expstr[matchlen] := c;
      matchlen := matchlen + 1;
      assert expstr[..matchlen] == before + [c];
    }
    assert ptr[i..] == "" && Decode("") == Text("") by { DecodeEmpty(); }
    ResumeEnd(expstr[..matchlen], Text(""));
    d := Text(expstr[..matchlen]);
  }

  /** Reads until the first character of the expect string. */
  method SkipTo(input: string, c: char) returns (f: nat)
    ensures f <= |input| && c !in input[..f]
    ensures f < |input| ==> FirstChar(c, input, f)
  {
    f := 0;
    while f < |input| && input[f] != c
      invariant f <= |input| && c !in input[..f]
    {
      f := f + 1;
    }
  }

  /** Where the search for p ends, by plain substring search: at the leftmost
      occurrence, unless the bytes from the first p[0] up to its end outgrow the
      buffer. */
  predicate Expected(p: string, input: string, r: Outcome)
    requires p != ""
  {
    match r
    case Matched(n) =>
      |p| <= n && Leftmost(p, input, n - |p|)
      && exists f :: 0 <= f <= n - |p| && FirstChar(p[0], input, f) && n - f <= MAXLINE
    case ReadError =>
      (forall k :: 0 <= k <= |input| ==> !Occurs(p, input, k))
      && forall f :: 0 <= f < |input| && FirstChar(p[0], input, f) ==> |input| - f <= MAXLINE
    case Overrun =>
      exists f :: 0 <= f < |input| && FirstChar(p[0], input, f) && |input| - f > MAXLINE
                  && forall k :: 0 <= k && k + |p| - f <= MAXLINE ==> !Occurs(p, input, k)
    case Refused(_) => false
  }

  /** The outcomes exclude each other: the specification leaves one answer. */
  lemma OneOutcome(p: string, input: string, r: Outcome, q: Outcome)
    requires p != "" && Expected(p, input, r) && Expected(p, input, q)
    ensures r == q
  {
    if r.Matched? && q.Matched? {
      assert Occurs(p, input, r.consumed - |p|) && Occurs(p, input, q.consumed - |p|);
    }
    if r.Matched? { MatchedOnly(p, input, r, q); }
    if q.Matched? { MatchedOnly(p, input, q, r); }
  }

  lemma MatchedOnly(p: string, input: string, r: Outcome, q: Outcome)
    requires p != "" && r.Matched? && Expected(p, input, r) && Expected(p, input, q)
    ensures q.Matched?
  {
    assert Occurs(p, input, r.consumed - |p|);
  }

  /** Overrun is reached: too much input that never completes a match. */
  lemma OverrunReached()
    ensures Decode("ab") == Text("ab") && Expected("ab", seq(MAXLINE + 1, _ => 'a'), Overrun)
  {
    assert "ab"[1..] == "b" && "b"[1..] == "";
    var input: string := seq(MAXLINE + 1, _ => 'a');
    forall k | 0 <= k ensures !Occurs("ab", input, k) {
      if k + 2 <= |input| { assert input[k..k + 2][1] == 'a' && "ab"[1] == 'b'; }
    }
    assert "ab"[0] == 'a' && FirstChar("ab"[0], input, 0) && |input| - 0 > MAXLINE;
  }

  /** The ways the search ends once no occurrence starts in the first c bytes from
      the first p[0], at f. */
  lemma SearchEnds(p: string, input: string, f: nat, c: nat)
    requires p != "" && FirstChar(p[0], input, f) && forall k :: f <= k < f + c ==> !Occurs(p, input, k)
    ensures Occurs(p, input, f + c) && c + |p| <= MAXLINE ==> Expected(p, input, Matched(f + c + |p|))
    ensures f + c + |p| > |input| && |input| - f <= MAXLINE ==> Expected(p, input, ReadError)
    ensures c + |p| > MAXLINE && |input| - f > MAXLINE ==> Expected(p, input, Overrun)
  {
    forall k | 0 <= k < f ensures !Occurs(p, input, k) {
      assert input[k] in input[..f];
      OccursAt(p, input, k);
    }
  }

  /** The window slides over the input that follows the first p[0], at f. */
  method Slide(input: string, p: string, f: nat) returns (r: Outcome)
    requires 0 < |p| < MAXLINE && FirstChar(p[0], input, f)
    ensures Expected(p, input, r)
  {
    hide Expected;
    var inbuf := new char[MAXLINE];
    inbuf[0] := input[f];
    var inptr, cmpptr := 0, 0;
    SearchEnds(p, input, f, 0);
    for i := 1 to |p|
      invariant inptr == i - 1 && f + i <= |input|
      invariant forall j :: 0 <= j <= inptr ==> inbuf[j] == input[f + j]
    {
      if f + i == |input| { return ReadError; }
      inptr := inptr + 1;
      inbuf[inptr] := input[f + i];
    }
    while true
      invariant inptr == cmpptr + |p| - 1 < MAXLINE && f + inptr < |input|
      invariant forall j :: 0 <= j <= inptr ==> inbuf[j] == input[f + j]
      invariant forall k :: f <= k < f + cmpptr ==> !Occurs(p, input, k)
      decreases |input| - inptr
    {
      assert inbuf[cmpptr..cmpptr + |p|] == input[f + cmpptr..f + cmpptr + |p|];
      SearchEnds(p, input, f, cmpptr);
      if inbuf[cmpptr..cmpptr + |p|] == p { return Matched(f + cmpptr + |p|); }
      SearchEnds(p, input, f, cmpptr + 1);
      inptr := inptr + 1;
      if f + inptr == |input| { return ReadError; }
      if inptr == MAXLINE { return Overrun; }
      inbuf[inptr] := input[f + inptr];
      cmpptr := cmpptr + 1;
    }
  }

  /** expect_str() on the bytes the descriptor delivers. */
  method ExpectStr(input: string, ptr: string) returns (r: Outcome)
    requires |ptr| < MAXLINE
    ensures ptr == "\"\"" ==> r == Matched(0)
    ensures ptr != "\"\"" && !Decode(ptr).Text? ==> r == Refused(Decode(ptr))
    ensures ptr != "\"\"" && Decode(ptr).Text? && Decode(ptr).s != "" ==> Expected(Decode(ptr).s, input, r)
    ensures ptr != "\"\"" && Decode(ptr).Text? && Decode(ptr).s == "" ==>
              if '\0' in input then r.Matched? && r.consumed > 0 && FirstChar('\0', input, r.consumed - 1) else r == ReadError
  {
    if ptr == "\"\"" { return Matched(0); }
    var expstr := new char[MAXLINE];
    var d, matchlen := CopyExpect(ptr, expstr);
    if !d.Text? { return Refused(d); }
    var p := expstr[..matchlen];
    assert p == d.s;
    var f := SkipTo(input, if matchlen == 0 then '\0' else p[0]);
    if f == |input| {
      assert input[..f] == input;
      if matchlen > 0 {
        forall k | 0 <= k <= |input| ensures !Occurs(p, input, k) {
          OccursAt(p, input, k);
        }
      }
      return ReadError;
    }
    if matchlen == 0 { return Matched(f + 1); }
    r := Slide(input, p, f);
  }
}
