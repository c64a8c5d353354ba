/** backends/postgres/staging_writer.py: the staging_ref printer and parser, the validators,
    and the identity of a run_id once Postgres has cast it to UUID. */
module StagingRef {
  import opened Wrappers

  const PREFIX := "staging://"

  /** `staging_ref_for` without its key check; `write` prints the same text. */
  function Print(key: string, runId: string): string {
    PREFIX + key + "/" + runId
  }

  /** The published counterpart, `published://{key}/{run_id}`. */
  function PrintPublished(key: string, runId: string): string {
    "published://" + key + "/" + runId
  }

  /** `_validate_dataset_key`. */
  predicate ValidKey(key: string) {
    key != "" && '/' !in key && '\\' !in key
  }

  predicate RefChar(c: char) {
    '0' <= c <= '9' || 'a' <= c <= 'f' || c == '-'
  }

  /** `[0-9a-f-]{36}`. */
  predicate RefRunId(s: string) {
    |s| == 36 && forall c <- s :: RefChar(c)
  }

  /** The first position of '/', or the length. */
  function SlashAt(s: string): (k: nat)
    ensures k <= |s|
    ensures k < |s| ==> s[k] == '/'
    ensures '/' !in s[..k]
  {
    if s == "" || s[0] == '/' then 0
    else
      var k := SlashAt(s[1..]);
      assert s[..k + 1] == [s[0]] + s[1..][..k];
      k + 1
  }

  /** The regex `$` also matches just before one final newline. */
  function BeforeFinalNewline(s: string): string {
    if s != "" && s[|s| - 1] == '\n' then s[..|s| - 1] else s
  }

  /** `_parse_staging_ref`; None stands for its StagingWriteError. */
  function Parse(ref: string): Option<(string, string)> {
    if !(PREFIX <= ref) then None
    else
      var rest := ref[|PREFIX|..];
      var k := SlashAt(rest);
      if k == 0 || k == |rest| then None
      else
        var runId := BeforeFinalNewline(rest[k + 1..]);
        if RefRunId(runId) then Some((rest[..k], runId)) else None
  }

  // ---------------------------------------------------------------- round trips

  lemma {:induction false} SlashEndsKey(key: string, tail: string)
    requires '/' !in key
    ensures SlashAt(key + "/" + tail) == |key|
  {
    var s := key + "/" + tail;
    if key != "" {
      assert s[0] == key[0];
      assert s[1..] == key[1..] + "/" + tail;
      SlashEndsKey(key[1..], tail);
    }
  }

  /** Parsing a printed text comes down to the run_id. */
  lemma ParsePrinted(key: string, runId: string)
    requires ValidKey(key)
    ensures var id := BeforeFinalNewline(runId);
      Parse(Print(key, runId)) == if RefRunId(id) then Some((key, id)) else None
  {
    var ref := Print(key, runId);
    var rest := key + "/" + runId;
    Associates(PREFIX, key, "/" + runId);
    assert ref == PREFIX + rest && ref[|PREFIX|..] == rest;
    SlashEndsKey(key, runId);
    assert rest[..|key|] == key && rest[|key| + 1..] == runId;
  }

  /** What was printed for a valid key parses, exactly when the run_id (less one final newline)
      has the 36-character lower-case form; it parses back to itself exactly when the run_id has
      that form as it stands. */
  lemma ParseInvertsPrint(key: string, runId: string)
    requires ValidKey(key)
    ensures Parse(Print(key, runId)).Some? <==> RefRunId(BeforeFinalNewline(runId))
    ensures Parse(Print(key, runId)) == Some((key, runId)) <==> RefRunId(runId)
  {
    ParsePrinted(key, runId);
    if RefRunId(runId) {
      assert RefChar(runId[35]);
    }
  }

  /** An accepted text is the printed form of what it parsed to, up to one final newline. */
  lemma PrintInvertsParse(ref: string)
    requires Parse(ref).Some?
    ensures var (key, runId) := Parse(ref).value;
      && Print(key, runId) == BeforeFinalNewline(ref)
      && key != "" && '/' !in key && RefRunId(runId)
  {
    var key, tail := Parts(ref);
    ParsedEnd(PREFIX, key, tail);
  }

  /** An accepted text has its prefix, its key and, after a slash, the run_id. */
  lemma Parts(ref: string) returns (key: string, tail: string)
    requires Parse(ref).Some?
    ensures ref == PREFIX + key + "/" + tail && tail != ""
    ensures key != "" && '/' !in key && RefRunId(BeforeFinalNewline(tail))
    ensures Parse(ref) == Some((key, BeforeFinalNewline(tail)))
  {
    var rest := ref[|PREFIX|..];
    var k := SlashAt(rest);
    key, tail := rest[..k], rest[k + 1..];
    SplitAt(rest, k, '/');
    Prefixed(ref, PREFIX, key, "/", tail);
  }

  lemma SplitAt(s: string, k: nat, c: char)
    requires k < |s| && s[k] == c
    ensures s == s[..k] + [c] + s[k + 1..]
  {
  }

  lemma Prefixed(s: string, prefix: string, a: string, b: string, c: string)
    requires prefix <= s && s[|prefix|..] == a + b + c
    ensures s == prefix + a + b + c
  {
    assert s == prefix + s[|prefix|..];
  }

  /** The final newline of the whole text is that of its run_id. */
  lemma ParsedEnd(prefix: string, key: string, tail: string)
    requires tail != ""
    ensures BeforeFinalNewline(prefix + key + "/" + tail) == prefix + key + "/" + BeforeFinalNewline(tail)
  {
    var ref := prefix + key + "/" + tail;
    assert ref[|ref| - 1] == tail[|tail| - 1];
  }

  lemma PrintIsInjective(k1: string, r1: string, k2: string, r2: string)
    requires '/' !in k1 && '/' !in k2
    requires Print(k1, r1) == Print(k2, r2)
    ensures k1 == k2 && r1 == r2
  {
    var s1, s2 := k1 + "/" + r1, k2 + "/" + r2;
    assert Print(k1, r1) == PREFIX + s1 && Print(k2, r2) == PREFIX + s2;
    assert s1 == Print(k1, r1)[|PREFIX|..] == s2;
    SlashEndsKey(k1, r1);
    SlashEndsKey(k2, r2);
    assert k1 == s1[..|k1|] && k2 == s2[..|k2|];
    assert r1 == s1[|k1| + 1..] && r2 == s2[|k2| + 1..];
  }

  lemma PrintPublishedIsInjective(k1: string, r1: string, k2: string, r2: string)
    requires '/' !in k1 && '/' !in k2
    requires PrintPublished(k1, r1) == PrintPublished(k2, r2)
    ensures k1 == k2 && r1 == r2
  {
    var p := "published://";
    var s1, s2 := k1 + "/" + r1, k2 + "/" + r2;
    assert PrintPublished(k1, r1) == p + s1 && PrintPublished(k2, r2) == p + s2;
    assert s1 == PrintPublished(k1, r1)[|p|..] == s2;
    assert Print(k1, r1) == PREFIX + s1 && Print(k2, r2) == PREFIX + s2;
    PrintIsInjective(k1, r1, k2, r2);
  }

  // ---------------------------------------------------------------- run ids as UUIDs

  function Lower(c: char): char {
    if 'A' <= c <= 'F' then 'a' + (c - 'A') else c
  }

  /** The value of the UUID column: hyphens and letter case carry no information. */
  function UuidOf(runId: string): string {
    if runId == "" then "" else Letter(runId[0]) + UuidOf(runId[1..])
  }

  function Letter(c: char): string {
    if c == '-' then "" else [Lower(c)]
  }

  predicate HexDigit(c: char) {
    '0' <= c <= '9' || 'a' <= c <= 'f'
  }

  /** `_validate_run_id`: 32 hexadecimal digits once hyphens are dropped. */
  predicate ValidRunId(runId: string) {
    |UuidOf(runId)| == 32 && forall c <- UuidOf(runId) :: HexDigit(c)
  }

  /** What Postgres casts to UUID, given 32 hexadecimal digits: groups of four, each but the last
      optionally followed by one hyphen. */
  predicate Castable(runId: string) {
    && 4 <= |runId| && '-' !in runId[..4]
    && (|runId| == 4 || Castable(if runId[4] == '-' then runId[5..] else runId[4..]))
  }

  predicate HyphenSlot(i: int) {
    i == 8 || i == 13 || i == 18 || i == 23
  }

  /** The 8-4-4-4-12 lower-case form that `str(uuid4())` produces. */
  predicate Standard(runId: string) {
    && |runId| == 36
    && forall i | 0 <= i < 36 :: if HyphenSlot(i) then runId[i] == '-' else HexDigit(runId[i])
  }

  lemma UuidOfCons(c: char, rest: string)
    ensures UuidOf([c] + rest) == Letter(c) + UuidOf(rest)
  {
    assert ([c] + rest)[1..] == rest;
  }

  lemma {:induction false} UuidOfConcat(a: string, b: string)
    ensures UuidOf(a + b) == UuidOf(a) + UuidOf(b)
  {
    if a == "" {
      assert a + b == b;
    } else {
      var c, rest := a[0], a[1..];
      assert a == [c] + rest;
      Associates([c], rest, b);
      UuidOfCons(c, rest + b);
      UuidOfCons(c, rest);
      UuidOfConcat(rest, b);
      Associates(Letter(c), UuidOf(rest), UuidOf(b));
    }
  }

  lemma {:induction false} UuidOfDigits(s: string)
    requires forall c <- s :: HexDigit(c)
    ensures UuidOf(s) == s
  {
    if s != "" {
      assert HexDigit(s[0]);
      UuidOfDigits(s[1..]);
    }
  }

  ghost predicate Digits(s: string) {
    forall c <- s :: HexDigit(c)
  }

  lemma HyphenVanishes(rest: string)
    ensures UuidOf("-" + rest) == UuidOf(rest)
  {
    UuidOfCons('-', rest);
  }

  lemma UuidOfGroup(group: string, rest: string)
    requires Digits(group)
    ensures UuidOf(group + ("-" + rest)) == group + UuidOf(rest)
  {
    UuidOfDigits(group);
    UuidOfConcat(group, "-" + rest);
    HyphenVanishes(rest);
  }

  /** Five groups of digits joined by hyphens. */
  function Hyphenated(a: string, b: string, c: string, d: string, e: string): string {
    a + ("-" + (b + ("-" + (c + ("-" + (d + ("-" + e)))))))
  }

  lemma HyphenatedUuid(a: string, b: string, c: string, d: string, e: string)
    requires Digits(a) && Digits(b) && Digits(c) && Digits(d) && Digits(e)
    ensures UuidOf(Hyphenated(a, b, c, d, e)) == a + (b + (c + (d + e)))
  {
    UuidOfDigits(e);
    UuidOfGroup(d, e);
    UuidOfGroup(c, d + ("-" + e));
    UuidOfGroup(b, c + ("-" + (d + ("-" + e))));
    UuidOfGroup(a, b + ("-" + (c + ("-" + (d + ("-" + e))))));
  }

  lemma SliceIsDigits(r: string, from: nat, to: nat)
    requires Standard(r) && from <= to <= 36 && forall i | from <= i < to :: !HyphenSlot(i)
    ensures Digits(r[from..to])
  {
    forall c <- r[from..to] ensures HexDigit(c) {
      var k :| 0 <= k < to - from && r[from..to][k] == c;
      assert !HyphenSlot(from + k);
    }
  }

  lemma SliceAtHyphen(r: string, from: nat, slot: nat)
    requires Standard(r) && from <= slot < 36 && HyphenSlot(slot)
    ensures r[from..] == r[from..slot] + ("-" + r[slot + 1..])
  {
    assert r[slot] == '-';
    assert r[from..] == r[from..slot] + ([r[slot]] + r[slot + 1..]);
  }

  /** A standard run id is its five groups of digits, hyphenated. */
  lemma StandardGroups(r: string)
    requires Standard(r)
    ensures r == Hyphenated(r[..8], r[9..13], r[14..18], r[19..23], r[24..])
    ensures Digits(r[..8]) && Digits(r[9..13]) && Digits(r[14..18]) && Digits(r[19..23]) && Digits(r[24..])
  {
    SliceAtHyphen(r, 19, 23);
    SliceAtHyphen(r, 14, 18);
    SliceAtHyphen(r, 9, 13);
    SliceAtHyphen(r, 0, 8);
    assert r[0..] == r && r[0..8] == r[..8] && r[24..36] == r[24..];
    SliceIsDigits(r, 0, 8);
    SliceIsDigits(r, 9, 13);
    SliceIsDigits(r, 14, 18);
    SliceIsDigits(r, 19, 23);
    SliceIsDigits(r, 24, 36);
  }

  lemma StandardUuid(r: string)
    requires Standard(r)
    ensures UuidOf(r) == r[..8] + (r[9..13] + (r[14..18] + (r[19..23] + r[24..])))
  {
    StandardGroups(r);
    HyphenatedUuid(r[..8], r[9..13], r[14..18], r[19..23], r[24..]);
  }

  lemma SplitsAlike(a1: string, b1: string, a2: string, b2: string)
    requires |a1| == |a2| && a1 + b1 == a2 + b2
    ensures a1 == a2 && b1 == b2
  {
    assert (a1 + b1)[..|a1|] == a1 && (a2 + b2)[..|a2|] == a2;
    assert (a1 + b1)[|a1|..] == b1 && (a2 + b2)[|a2|..] == b2;
  }

  lemma SameGroups(
      a1: string, b1: string, c1: string, d1: string, e1: string,
      a2: string, b2: string, c2: string, d2: string, e2: string)
    requires |a1| == |a2| && |b1| == |b2| && |c1| == |c2| && |d1| == |d2|
    requires a1 + (b1 + (c1 + (d1 + e1))) == a2 + (b2 + (c2 + (d2 + e2)))
    ensures a1 == a2 && b1 == b2 && c1 == c2 && d1 == d2 && e1 == e2
  {
    SplitsAlike(a1, b1 + (c1 + (d1 + e1)), a2, b2 + (c2 + (d2 + e2)));
    SplitsAlike(b1, c1 + (d1 + e1), b2, c2 + (d2 + e2));
    SplitsAlike(c1, d1 + e1, c2, d2 + e2);
    SplitsAlike(d1, e1, d2, e2);
  }

  lemma StandardIsDetermined(r1: string, r2: string)
    requires Standard(r1) && Standard(r2) && UuidOf(r1) == UuidOf(r2)
    ensures r1 == r2
  {
    StandardUuid(r1);
    StandardUuid(r2);
    StandardGroups(r1);
    StandardGroups(r2);
    SameGroups(r1[..8], r1[9..13], r1[14..18], r1[19..23], r1[24..],
               r2[..8], r2[9..13], r2[14..18], r2[19..23], r2[24..]);
  }

  lemma GroupIsCastable(group: string, rest: string)
    requires |group| == 4 && Digits(group) && Castable(rest)
    ensures Castable(group + rest) && Castable(group + ("-" + rest))
  {
    var s, h := group + rest, group + ("-" + rest);
    assert s[..4] == group == h[..4] && s[4..] == rest == h[5..];
    assert s[4] == rest[..4][0];
  }

  lemma LastGroupIsCastable(group: string)
    requires |group| == 4 && Digits(group)
    ensures Castable(group)
  {
    assert group[..4] == group;
  }

  lemma Associates(a: string, b: string, c: string)
    ensures (a + b) + c == a + (b + c)
  {
  }

  lemma UsualIsCastable(a: string, b: string, c: string, d: string, e: string, f: string)
    requires |a| == |b| == |c| == |d| == |e| == 4 && |f| == 12
    requires Digits(a) && Digits(b) && Digits(c) && Digits(d) && Digits(e) && Digits(f)
    ensures Castable(Hyphenated(a + b, c, d, e, f))
  {
    var t1 := e + ("-" + f);
    var t2 := d + ("-" + t1);
    var t3 := c + ("-" + t2);
    TailIsCastable(f);
    GroupIsCastable(e, f);
    GroupIsCastable(d, t1);
    GroupIsCastable(c, t2);
    GroupIsCastable(b, t3);
    GroupIsCastable(a, b + ("-" + t3));
    Associates(a, b, "-" + t3);
  }

  lemma MovedIsCastable(a: string, b: string, c: string, d: string, e: string, f: string)
    requires |a| == |b| == |c| == |d| == |e| == 4 && |f| == 12
    requires Digits(a) && Digits(b) && Digits(c) && Digits(d) && Digits(e) && Digits(f)
    ensures Castable(Hyphenated(a, b, c, d, e + f))
  {
    var t1 := d + ("-" + (e + f));
    var t2 := c + ("-" + t1);
    TailIsCastable(f);
    GroupIsCastable(e, f);
    GroupIsCastable(d, e + f);
    GroupIsCastable(c, t1);
    GroupIsCastable(b, t2);
    GroupIsCastable(a, b + ("-" + t2));
  }

  lemma TailIsCastable(f: string)
    requires |f| == 12 && Digits(f)
    ensures Castable(f)
  {
    LastGroupIsCastable(f[8..]);
    GroupIsCastable(f[4..8], f[8..]);
    GroupIsCastable(f[..4], f[4..]);
    assert f[4..8] + f[8..] == f[4..] && f[..4] + f[4..] == f;
  }

  /** A run id as `new_run_id` makes them is accepted, cast and read back. */
  lemma StandardIsUsable(r: string)
    requires Standard(r)
    ensures ValidRunId(r) && Castable(r) && RefRunId(r)
  {
    StandardUuid(r);
    StandardGroups(r);
    UsualIsCastable(r[..4], r[4..8], r[9..13], r[14..18], r[19..23], r[24..]);
    assert r[..4] + r[4..8] == r[..8];
  }

  /** For run ids as `new_run_id` makes them, the primary key on staging_ref and the unique index
      on (dataset_key, run_id) reject exactly the same second row. */
  lemma IndexesAgree(k1: string, r1: string, k2: string, r2: string)
    requires ValidKey(k1) && ValidKey(k2) && Standard(r1) && Standard(r2)
    ensures Print(k1, r1) == Print(k2, r2) <==> k1 == k2 && UuidOf(r1) == UuidOf(r2)
  {
    if Print(k1, r1) == Print(k2, r2) {
      PrintIsInjective(k1, r1, k2, r2);
    }
    if k1 == k2 && UuidOf(r1) == UuidOf(r2) {
      StandardIsDetermined(r1, r2);
    }
  }

  lemma MovedDiffers(a: string, b: string, rest: string, other: string)
    requires b != "" && Digits(b)
    ensures a + (b + rest) != a + ("-" + other)
  {
    assert (b + rest)[0] == b[0] && b[0] in b && ("-" + other)[0] == '-';
    if a + (b + rest) == a + ("-" + other) {
      SplitsAlike(a, b + rest, a, "-" + other);
    }
  }

  lemma DigitsOfConcat(a: string, b: string)
    requires Digits(a) && Digits(b)
    ensures Digits(a + b)
  {
  }

  /** 32 digits with four hyphens are a valid run_id and have the 36-character form. */
  lemma HyphenatedIsValid(a: string, b: string, c: string, d: string, e: string)
    requires Digits(a) && Digits(b) && Digits(c) && Digits(d) && Digits(e)
    requires |a| + |b| + |c| + |d| + |e| == 32
    ensures var s := Hyphenated(a, b, c, d, e); ValidRunId(s) && RefRunId(s)
  {
    HyphenatedUuid(a, b, c, d, e);
    DigitsOfConcat(d, e);
    DigitsOfConcat(c, d + e);
    DigitsOfConcat(b, c + (d + e));
    DigitsOfConcat(a, b + (c + (d + e)));
    var s := Hyphenated(a, b, c, d, e);
    forall x <- s ensures RefChar(x) {
      assert x in a || x in b || x in c || x in d || x in e || x == '-';
    }
  }

  /** With the hyphens moved, one UUID has a second accepted spelling, which the primary key on
      staging_ref alone would let in beside the usual one. */
  lemma MovedHyphensSplitTheIndexes(key: string, a: string, b: string, c: string, d: string, e: string, f: string)
    requires |a| == |b| == |c| == |d| == |e| == 4 && |f| == 12 && ValidKey(key)
    requires Digits(a) && Digits(b) && Digits(c) && Digits(d) && Digits(e) && Digits(f)
    ensures var usual, moved := Hyphenated(a + b, c, d, e, f), Hyphenated(a, b, c, d, e + f);
      && ValidRunId(usual) && ValidRunId(moved) && RefRunId(usual) && RefRunId(moved)
      && Castable(usual) && Castable(moved)
      && UuidOf(usual) == UuidOf(moved)
      && Print(key, usual) != Print(key, moved)
  {
    DigitsOfConcat(a, b);
    DigitsOfConcat(e, f);
    HyphenatedIsValid(a + b, c, d, e, f);
    HyphenatedIsValid(a, b, c, d, e + f);
    UsualIsCastable(a, b, c, d, e, f);
    MovedIsCastable(a, b, c, d, e, f);
    HyphenatedUuid(a + b, c, d, e, f);
    HyphenatedUuid(a, b, c, d, e + f);
    Associates(a, b, c + (d + (e + f)));
    MovedHyphensDiffer(a, b, c, d, e, f);
    var usual, moved := Hyphenated(a + b, c, d, e, f), Hyphenated(a, b, c, d, e + f);
    if Print(key, usual) == Print(key, moved) {
      PrintIsInjective(key, usual, key, moved);
    }
  }

  lemma MovedHyphensDiffer(a: string, b: string, c: string, d: string, e: string, f: string)
    requires b != "" && Digits(b)
    ensures Hyphenated(a + b, c, d, e, f) != Hyphenated(a, b, c, d, e + f)
  {
    var rest := "-" + (c + ("-" + (d + ("-" + (e + ("-" + f))))));
    Associates(a, b, rest);
    MovedDiffers(a, b, rest, b + ("-" + (c + ("-" + (d + ("-" + (e + f)))))));
  }

  /** Digits with a hyphen in front: accepted by the writer factory, and not cast by Postgres. */
  lemma LeadingHyphenIsNotCast(digits: string)
    requires |digits| == 32 && Digits(digits)
    ensures ValidRunId("-" + digits) && !Castable("-" + digits)
  {
    HyphenVanishes(digits);
    UuidOfDigits(digits);
    assert ("-" + digits)[..4][0] == '-';
  }

  /** A run_id the writer accepts can be read back exactly when it has the 36-character form. */
  lemma StagedRunIdReadsBack(key: string, runId: string)
    requires ValidKey(key) && ValidRunId(runId)
    ensures Parse(Print(key, runId)).Some? <==> RefRunId(runId)
  {
    ParseInvertsPrint(key, runId);
    if runId != "" && runId[|runId| - 1] == '\n' {
      var init := runId[..|runId| - 1];
      assert runId == init + "\n";
      UuidOfConcat(init, "\n");
      assert UuidOf("\n") == "\n" by { assert UuidOf("\n"[1..]) == ""; }
      assert '\n' in UuidOf(runId);
    }
  }

  // ---------------------------------------------------------------- the formats, character by character

  /** The run_id part of a staging_ref. */
  lemma RefRunIdIs(s: string)
    ensures RefRunId(s) <==> |s| == 36 && forall i | 0 <= i < |s| :: s[i] in "0123456789abcdef-"
  {
    forall i | 0 <= i < |s| ensures RefChar(s[i]) <==> s[i] in "0123456789abcdef-" {
      RefCharIs(s[i]);
    }
    if forall i | 0 <= i < |s| :: s[i] in "0123456789abcdef-" {
      forall c <- s ensures RefChar(c) {
        var i :| 0 <= i < |s| && s[i] == c;
      }
    }
  }

  lemma RefCharIs(c: char)
    ensures RefChar(c) <==> c in "0123456789abcdef-"
  {
    assert c in "0123456789abcdef-" <==> c in "0123456789" || c in "abcdef" || c == '-' by {
      assert "0123456789abcdef-" == "0123456789" + "abcdef" + "-";
    }
  }

  function NonHyphens(s: string): nat {
    if s == "" then 0 else (if s[0] == '-' then 0 else 1) + NonHyphens(s[1..])
  }

  lemma {:induction false} UuidLength(s: string)
    ensures |UuidOf(s)| == NonHyphens(s)
  {
    if s != "" {
      UuidLength(s[1..]);
    }
  }

  lemma {:induction false} UuidDigits(s: string)
    ensures (forall c <- UuidOf(s) :: HexDigit(c)) <==> forall i | 0 <= i < |s| :: s[i] in "0123456789abcdefABCDEF-"
  {
    if s != "" {
      UuidDigits(s[1..]);
      assert UuidOf(s) == Letter(s[0]) + UuidOf(s[1..]);
      assert s == [s[0]] + s[1..];
      assert s[0] != '-' ==> (HexDigit(Lower(s[0])) <==> s[0] in "0123456789abcdefABCDEF-");
    }
  }

  /** The run_ids the writer factory accepts: 32 hexadecimal digits in either case, and any hyphens. */
  lemma ValidRunIdIs(s: string)
    ensures ValidRunId(s) <==>
      NonHyphens(s) == 32 && forall i | 0 <= i < |s| :: s[i] in "0123456789abcdefABCDEF-"
  {
    UuidLength(s);
    UuidDigits(s);
  }

  /** Upper-case spellings are the same UUID; a staging_ref with one cannot be read back. */
  lemma {:induction false} UpperCaseIsSameUuid(s: string, t: string)
    requires |s| == |t|
    requires forall i | 0 <= i < |s| :: t[i] == s[i] || ('a' <= s[i] <= 'f' && t[i] == s[i] - 'a' + 'A')
    ensures UuidOf(t) == UuidOf(s)
    ensures (exists i | 0 <= i < |s| :: t[i] != s[i]) ==> !RefRunId(t)
  {
    if s != "" {
      UpperCaseIsSameUuid(s[1..], t[1..]);
      assert Letter(t[0]) == Letter(s[0]);
    }
    forall i | 0 <= i < |s| && t[i] != s[i] ensures !RefChar(t[i]) {
    }
  }

  /** A published_ref is never a staging_ref. */
  lemma RefsAreApart(k1: string, r1: string, k2: string, r2: string)
    ensures Print(k1, r1) != PrintPublished(k2, r2) && Parse(PrintPublished(k2, r2)).None?
  {
    assert Print(k1, r1)[0] == 's' && PrintPublished(k2, r2)[0] == 'p';
  }

  // ---------------------------------------------------------------- what Postgres casts

  lemma {:induction false} NonHyphensConcat(a: string, b: string)
    ensures NonHyphens(a + b) == NonHyphens(a) + NonHyphens(b)
  {
    if a == "" {
      assert a + b == b;
    } else {
      assert (a + b)[1..] == a[1..] + b;
      NonHyphensConcat(a[1..], b);
    }
  }

  /** No hyphens: every character counts. */
  lemma {:induction false} AllCount(s: string)
    requires '-' !in s
    ensures NonHyphens(s) == |s|
  {
    if s != "" {
      AllCount(s[1..]);
    }
  }

  /** Each hyphen stands alone between two groups of four. */
  predicate HyphenFits(s: string, i: nat)
    requires i < |s|
  {
    s[i] == '-' ==> 0 < i < |s| - 1 && s[i - 1] != '-' && NonHyphens(s[..i]) % 4 == 0
  }

  predicate HyphensFit(s: string) {
    && 0 < NonHyphens(s) && NonHyphens(s) % 4 == 0
    && forall i | 0 <= i < |s| :: HyphenFits(s, i)
  }

  /** The head group of a string, and what follows it. */
  lemma Headed(s: string, n: nat)
    requires 4 <= n <= |s| && n <= 5 && '-' !in s[..4] && (n == 5 ==> s[4] == '-')
    ensures NonHyphens(s) == 4 + NonHyphens(s[n..])
    ensures forall i | n <= i <= |s| :: NonHyphens(s[..i]) == 4 + NonHyphens(s[n..][..i - n])
  {
    AllCount(s[..4]);
    assert s[..n] == s[..4] + s[4..n];
    NonHyphensConcat(s[..4], s[4..n]);
    assert n == 5 ==> s[4..n] == "-" && "-"[1..] == "";
    assert n == 4 ==> s[4..n] == "";
    assert s == s[..n] + s[n..];
    NonHyphensConcat(s[..n], s[n..]);
    forall i | n <= i <= |s| ensures NonHyphens(s[..i]) == 4 + NonHyphens(s[n..][..i - n]) {
      assert s[..i] == s[..n] + s[n..][..i - n];
      NonHyphensConcat(s[..n], s[n..][..i - n]);
    }
  }

  lemma HeadOfFit(s: string)
    requires HyphensFit(s)
    ensures 4 <= |s| && '-' !in s[..4]
  {
    if |s| < 4 || '-' in s[..4] {
      FewHyphens(s, if |s| < 4 then |s| else 4);
    }
  }

  /** The first characters, while there is no hyphen, count one by one; so none of four is one. */
  lemma {:induction false} FewHyphens(s: string, n: nat)
    requires HyphensFit(s) && n <= 4 && n <= |s|
    ensures '-' !in s[..n] && NonHyphens(s[..n]) == n && 4 <= |s|
  {
    if n == 0 {
      CountAtMost(s);
    } else {
      FewHyphens(s, n - 1);
      assert HyphenFits(s, n - 1);
      assert s[..n] == s[..n - 1] + [s[n - 1]];
      AllCount(s[..n]);
    }
  }

  lemma {:induction false} CountAtMost(s: string)
    ensures NonHyphens(s) <= |s|
  {
    if s != "" {
      CountAtMost(s[1..]);
    }
  }

  /** What Postgres casts, given hexadecimal digits: groups of four, and hyphens only singly between
      two groups. */
  lemma {:induction false} CastableIffHyphensFit(s: string)
    ensures Castable(s) <==> HyphensFit(s)
    decreases |s|
  {
    if HyphensFit(s) {
      HeadOfFit(s);
    }
    if 4 <= |s| && '-' !in s[..4] {
      if |s| == 4 {
        AllCount(s[..4]);
        assert s[..4] == s;
        assert forall i | 0 <= i < |s| :: s[i] in s[..4];
      } else {
        var n := if s[4] == '-' then 5 else 4;
        CastableIffHyphensFit(s[n..]);
        Headed(s, n);
        TailFits(s, n);
      }
    }
  }

  lemma TailFits(s: string, n: nat)
    requires 4 < |s| && n == (if s[4] == '-' then 5 else 4) && '-' !in s[..4]
    ensures HyphensFit(s) <==> HyphensFit(s[n..])
  {
    Headed(s, n);
    var rest := s[n..];
    if HyphensFit(s) {
      assert HyphenFits(s, 4) && (5 < |s| ==> HyphenFits(s, 5));
      assert rest != "" && rest[0] != '-';
      forall i | 0 <= i < |rest| ensures HyphenFits(rest, i) {
        HyphenMoves(s, n, i);
      }
    }
    if HyphensFit(rest) {
      forall i | 0 <= i < |s| ensures HyphenFits(s, i) {
        if i >= n {
          HyphenMoves(s, n, i - n);
        } else {
          HeadHyphen(s, n, i);
        }
      }
    }
  }

  /** A hyphen past the head fits in the string as it fits in what follows the head. */
  lemma HyphenMoves(s: string, n: nat, i: nat)
    requires 4 < |s| && n == (if s[4] == '-' then 5 else 4) && '-' !in s[..4]
    requires i < |s| - n
    ensures HyphenFits(s, i + n) <==> HyphenFits(s[n..], i)
  {
    Headed(s, n);
    assert s[n..][i] == s[i + n];
    assert i > 0 ==> s[n..][i - 1] == s[i + n - 1];
  }

  lemma HeadHyphen(s: string, n: nat, i: nat)
    requires 4 < |s| && n == (if s[4] == '-' then 5 else 4) && '-' !in s[..4]
    requires i < n && i < |s| && NonHyphens(s[n..]) > 0
    ensures HyphenFits(s, i)
  {
    assert forall j | 0 <= j < 4 :: s[..4][j] == s[j];
    AllCount(s[..4]);
    assert i == 4 ==> s[..i] == s[..4];
  }
}
