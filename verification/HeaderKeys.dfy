/**
 The `[headers]` table that `render_toml` of src/from_curl.rs prints: one key per header,
 with a counter appended to the names that repeat.
 */
module HeaderKeys {
  import opened Wrappers
  import opened Escapes

  type Headers = seq<(string, string)>

  predicate Digit(c: char)
  {
    '0' <= c <= '9'
  }

  function Decimal(n: nat): (s: string)
    ensures s != "" && forall i | 0 <= i < |s| :: Digit(s[i])
  {
    if n < 10 then [('0' as int + n) as char] else Decimal(n / 10) + [('0' as int + n % 10) as char]
  }

  /** How many of the first `i` headers have this name. */
  function Seen(headers: Headers, i: nat, name: string): nat
    requires i <= |headers|
  {
    if i == 0 then 0 else Seen(headers, i - 1, name) + (if headers[i - 1].0 == name then 1 else 0)
  }

  function Key(name: string, count: nat): string
  {
    if count == 0 then name else name + "_" + Decimal(count)
  }

  function KeyAt(headers: Headers, i: nat): string
    requires i < |headers|
  {
    Key(headers[i].0, Seen(headers, i, headers[i].0))
  }

  /** The keys in the order printed, with a map of counts as the source keeps it. */
  method Keys(headers: Headers) returns (keys: seq<string>)
    ensures |keys| == |headers| && forall i | 0 <= i < |keys| :: keys[i] == KeyAt(headers, i)
  {
    var seen: map<string, nat> := map[];
    keys := [];
    for i := 0 to |headers|
      invariant |keys| == i && forall j | 0 <= j < i :: keys[j] == KeyAt(headers, j)
      invariant forall name :: (if name in seen then seen[name] else 0) == Seen(headers, i, name)
    {
      var name := headers[i].0;
      var count := if name in seen then seen[name] else 0;
      keys := keys + [Key(name, count)];
      seen := seen[name := count + 1];
    }
  }

  // ----- what the keys are -----

  /** The number that decimal digits stand for. */
  function NumberOf(digits: string): nat
    requires forall i | 0 <= i < |digits| :: Digit(digits[i])
  {
    if digits == "" then 0
    else
      assert Digit(digits[|digits| - 1]);
      NumberOf(digits[..|digits| - 1]) * 10 + (digits[|digits| - 1] as int - '0' as int)
  }

  lemma {:induction false} DecimalStandsFor(n: nat)
    ensures NumberOf(Decimal(n)) == n && (n > 0 ==> Decimal(n)[0] != '0')
  {
    var s := Decimal(n);
    if n < 10 {
      assert s[..0] == "";
    } else {
      DecimalStandsFor(n / 10);
      assert s[..|s| - 1] == Decimal(n / 10);
      assert s[|s| - 1] == ('0' as int + n % 10) as char;
    }
  }

  /** The headers before `i` that have this name. */
  function Earlier(headers: Headers, i: nat, name: string): set<nat>
    requires i <= |headers|
  {
    set j: nat | j < i && headers[j].0 == name
  }

  lemma {:induction false} SeenCounts(headers: Headers, i: nat, name: string)
    requires i <= |headers|
    ensures Seen(headers, i, name) == |Earlier(headers, i, name)|
  {
    if i == 0 {
      assert Earlier(headers, 0, name) == {};
    } else {
      SeenCounts(headers, i - 1, name);
      var before := Earlier(headers, i - 1, name);
      assert Earlier(headers, i, name) == if headers[i - 1].0 == name then before + {i - 1} else before;
    }
  }

  /** The key of a header: its name, and from the second of that name on an underscore and the decimal number of the
      earlier ones. */
  lemma KeyNumbersRepeats(headers: Headers, i: nat) returns (digits: string)
    requires i < |headers|
    ensures forall k | 0 <= k < |digits| :: '0' <= digits[k] <= '9'
    ensures var name := headers[i].0;
            var earlier := |Earlier(headers, i, name)|;
            if earlier == 0 then KeyAt(headers, i) == name
            else
              && KeyAt(headers, i) == name + "_" + digits
              && digits != "" && digits[0] != '0' && NumberOf(digits) == earlier
  {
    var count := Seen(headers, i, headers[i].0);
    SeenCounts(headers, i, headers[i].0);
    DecimalStandsFor(count);
    digits := Decimal(count);
  }

  // ----- are the keys distinct? -----

  lemma {:induction false} DecimalIsInjective(m: nat, n: nat)
    requires Decimal(m) == Decimal(n)
    ensures m == n
  {
    var s := Decimal(m);
    if m >= 10 && n >= 10 {
      assert Decimal(m / 10) == s[..|s| - 1] == Decimal(n / 10);
      DecimalIsInjective(m / 10, n / 10);
      assert s[|s| - 1] == ('0' as int + m % 10) as char;
      assert s[|s| - 1] == ('0' as int + n % 10) as char;
    }
  }

  /** Trailing digits. */
  function Tail(s: string): (n: nat)
    ensures n <= |s| && (forall i | |s| - n <= i < |s| :: Digit(s[i])) && (n < |s| ==> !Digit(s[|s| - n - 1]))
  {
    if s == "" || !Digit(s[|s| - 1]) then 0 else 1 + Tail(s[..|s| - 1])
  }

  predicate Suffixed(name: string)
  {
    0 < Tail(name) < |name| && name[|name| - Tail(name) - 1] == '_'
  }

  /** A key without its counter. */
  function Strip(key: string): string
  {
    if Suffixed(key) then key[..|key| - Tail(key) - 1] else key
  }

  lemma SuffixIsRead(name: string, count: nat)
    requires count > 0
    ensures Suffixed(Key(name, count)) && Strip(Key(name, count)) == name
    ensures Tail(Key(name, count)) == |Decimal(count)|
  {
    var k, d := Key(name, count), Decimal(count);
    assert k[|name|] == '_' && !Digit('_');
    assert forall i | 0 <= i < |d| :: k[|name| + 1 + i] == d[i];
    assert Tail(k) >= |d| by {
      assert forall i | |name| < i < |k| :: k[i] == d[i - |name| - 1];
    }
    assert k[..|name|] == name;
  }

  lemma KeyIsInjective(a: string, m: nat, b: string, n: nat)
    requires Key(a, m) == Key(b, n) && m > 0 && n > 0
    ensures a == b && m == n
  {
    SuffixIsRead(a, m);
    SuffixIsRead(b, n);
    var k := Key(a, m);
    assert k[|a| + 1..] == Decimal(m) && k[|b| + 1..] == Decimal(n);
    DecimalIsInjective(m, n);
  }

  lemma {:induction false} SeenGrows(headers: Headers, i: nat, j: nat, name: string)
    requires i <= j <= |headers|
    ensures Seen(headers, i, name) <= Seen(headers, j, name)
    ensures forall k | i <= k < j && headers[k].0 == name :: Seen(headers, i, name) < Seen(headers, j, name)
    decreases j - i
  {
    if i < j {
      SeenGrows(headers, i, j - 1, name);
    }
  }

  lemma {:induction false} FirstOccurrence(headers: Headers, i: nat) returns (j: nat)
    requires i < |headers|
    ensures j <= i && headers[j].0 == headers[i].0 && Seen(headers, j, headers[j].0) == 0
    decreases i
  {
    j := i;
    if Seen(headers, i, headers[i].0) > 0 {
      var k := SomeEarlier(headers, i, headers[i].0);
      j := FirstOccurrence(headers, k);
    }
  }

  lemma {:induction false} SomeEarlier(headers: Headers, i: nat, name: string) returns (k: nat)
    requires i <= |headers| && Seen(headers, i, name) > 0
    ensures k < i && headers[k].0 == name
  {
    if headers[i - 1].0 == name {
      k := i - 1;
    } else {
      k := SomeEarlier(headers, i - 1, name);
    }
  }

  ghost predicate DistinctKeys(headers: Headers)
  {
    forall i, j | 0 <= i < j < |headers| :: KeyAt(headers, i) != KeyAt(headers, j)
  }

  /** Some header is named like the numbered key given to a repeated one. */
  ghost predicate NameTaken(headers: Headers)
  {
    exists i, j | 0 <= i < |headers| && 0 <= j < |headers| ::
      Seen(headers, i, headers[i].0) > 0 && headers[j].0 == KeyAt(headers, i)
  }

  /** Repeated headers get distinct keys exactly when no header already has the name of a numbered key. */
  lemma KeysDistinctIffNoNameTaken(headers: Headers)
    ensures DistinctKeys(headers) <==> !NameTaken(headers)
  {
    if NameTaken(headers) {
      var i, j :| 0 <= i < |headers| && 0 <= j < |headers| &&
                  Seen(headers, i, headers[i].0) > 0 && headers[j].0 == KeyAt(headers, i);
      var k := FirstOccurrence(headers, j);
      assert KeyAt(headers, k) == KeyAt(headers, i) && k != i;
    } else {
      forall i, j | 0 <= i < j < |headers|
        ensures KeyAt(headers, i) != KeyAt(headers, j)
      {
        KeysDiffer(headers, i, j);
      }
    }
  }

  lemma KeysDiffer(headers: Headers, i: nat, j: nat)
    requires i < j < |headers| && !NameTaken(headers)
    ensures KeyAt(headers, i) != KeyAt(headers, j)
  {
    var a, m := headers[i].0, Seen(headers, i, headers[i].0);
    var b, n := headers[j].0, Seen(headers, j, headers[j].0);
    if a == b {
      SeenGrows(headers, i, j, a);
    }
    if Key(a, m) == Key(b, n) && m > 0 && n > 0 {
      KeyIsInjective(a, m, b, n);
    }
  }

  /** The numbered table reads back as the original list, duplicates and order included, exactly when no
      header name itself ends in an underscore and digits. */
  lemma NamesReadBack(headers: Headers)
    ensures (forall i | 0 <= i < |headers| :: Strip(KeyAt(headers, i)) == headers[i].0) <==>
            (forall i | 0 <= i < |headers| :: !Suffixed(headers[i].0))
  {
    if i: nat :| i < |headers| && Suffixed(headers[i].0) {
      var j := FirstOccurrence(headers, i);
      assert |Strip(KeyAt(headers, j))| < |headers[j].0|;
    }
    forall i | 0 <= i < |headers| && !Suffixed(headers[i].0)
      ensures Strip(KeyAt(headers, i)) == headers[i].0
    {
      var n := Seen(headers, i, headers[i].0);
      if n > 0 {
        SuffixIsRead(headers[i].0, n);
      }
    }
  }

  /** In that case the keys are distinct as well. */
  lemma UnsuffixedKeysDistinct(headers: Headers)
    requires forall i | 0 <= i < |headers| :: !Suffixed(headers[i].0)
    ensures DistinctKeys(headers)
  {
    forall i, j | 0 <= i < |headers| && 0 <= j < |headers| && Seen(headers, i, headers[i].0) > 0
      ensures headers[j].0 != KeyAt(headers, i)
    {
      SuffixIsRead(headers[i].0, Seen(headers, i, headers[i].0));
    }
    KeysDistinctIffNoNameTaken(headers);
  }

  // ----- the table as text -----

  function Entry(key: string, value: string): string
  {
    Escaped(Toml, key) + " = " + Escaped(Toml, value) + "\n"
  }

  /** The lines for the headers from index `i` on. */
  function Table(headers: Headers, i: nat): string
    requires i <= |headers|
    decreases |headers| - i
  {
    if i == |headers| then "" else Entry(KeyAt(headers, i), headers[i].1) + Table(headers, i + 1)
  }

  /** A key, its value and the text after their line. */
  function ReadEntry(t: string): (r: Option<(string, string, string)>)
    ensures r.Some? ==> |r.value.2| < |t|
  {
    match Read(Toml, t)
    case None => None
    case Some(k) =>
      if |k.1| < 3 || k.1[..3] != " = " then None
      else
        match Read(Toml, k.1[3..])
        case None => None
        case Some(v) => if v.1 != "" && v.1[0] == '\n' then Some((k.0, v.0, v.1[1..])) else None
  }

  /** Reads a table of strings to the end of the text, dropping the counters of the keys. */
  function ReadTable(t: string): Option<Headers>
    decreases |t|
  {
    if t == "" then Some([])
    else
      match ReadEntry(t)
      case None => None
      case Some(e) =>
        match ReadTable(e.2)
        case None => None
        case Some(rest) => Some([(Strip(e.0), e.1)] + rest)
  }

  predicate Writable(h: (string, string))
  {
    Printable(Toml, h.0) && Printable(Toml, h.1)
  }

  lemma EntryReadsBack(key: string, value: string, rest: string)
    ensures ReadEntry(Entry(key, value) + rest) ==
            if Writable((key, value)) then Some((key, value, rest)) else None
  {
    hide Read, Escaped, Printable;
    var r2 := "\n" + rest;
    var r1 := " = " + (Escaped(Toml, value) + r2);
    EscapedReadsBack(Toml, key, r1);
    EscapedReadsBack(Toml, value, r2);
    assert Entry(key, value) + rest == Escaped(Toml, key) + r1;
    assert r1[..3] == " = " && r1[3..] == Escaped(Toml, value) + r2;
    assert r2[1..] == rest;
  }

  lemma KeyIsPrintable(name: string, count: nat)
    ensures Printable(Toml, Key(name, count)) <==> Printable(Toml, name)
  {
    var key := Key(name, count);
    assert forall c | c in Decimal(count) :: Digit(c);
    if count > 0 {
      assert forall c :: c in key <==> c in name || c == '_' || c in Decimal(count);
    }
  }

  /** The headers from `i` on with their keys stripped of counters. */
  function Stripped(headers: Headers, i: nat): Headers
    requires i <= |headers|
    decreases |headers| - i
  {
    if i == |headers| then [] else [(Strip(KeyAt(headers, i)), headers[i].1)] + Stripped(headers, i + 1)
  }

  lemma {:induction false} StrippedAt(headers: Headers, i: nat)
    requires i <= |headers|
    ensures Stripped(headers, i) == headers[i..] <==>
            (forall j | i <= j < |headers| :: Strip(KeyAt(headers, j)) == headers[j].0)
    decreases |headers| - i
  {
    if i < |headers| {
      StrippedAt(headers, i + 1);
      var r := Stripped(headers, i);
      assert headers[i..] == [headers[i]] + headers[i + 1..];
      assert r[0] == (Strip(KeyAt(headers, i)), headers[i].1) && r[1..] == Stripped(headers, i + 1);
      assert headers[i..][0] == headers[i] && headers[i..][1..] == headers[i + 1..];
      hide *;
    }
  }

  predicate AllWritable(headers: Headers, i: nat)
    requires i <= |headers|
    decreases |headers| - i
  {
    i == |headers| || (Writable(headers[i]) && AllWritable(headers, i + 1))
  }

  lemma {:induction false} TableReads(headers: Headers, i: nat)
    requires i <= |headers|
    ensures ReadTable(Table(headers, i)) ==
            if AllWritable(headers, i) then Some(Stripped(headers, i)) else None
    decreases |headers| - i
  {
    if i < |headers| {
      KeyIsPrintable(headers[i].0, Seen(headers, i, headers[i].0));
      EntryReadsBack(KeyAt(headers, i), headers[i].1, Table(headers, i + 1));
      TableReads(headers, i + 1);
      hide ReadEntry, Entry, KeyAt, Key, Strip, Printable;
    }
  }

  lemma {:induction false} AllWritableIs(headers: Headers, i: nat)
    requires i <= |headers|
    ensures AllWritable(headers, i) <==> forall j | i <= j < |headers| :: Writable(headers[j])
    decreases |headers| - i
  {
    if i < |headers| {
      AllWritableIs(headers, i + 1);
    }
  }

  /** The printed `[headers]` table reads back as the header list, in order and with duplicates, exactly when no
      name ends in an underscore and digits and no name or value has a DEL. */
  lemma TableReadsBack(headers: Headers)
    ensures ReadTable(Table(headers, 0)) == Some(headers) <==>
            (forall i | 0 <= i < |headers| :: !Suffixed(headers[i].0) && Writable(headers[i]))
  {
    TableReads(headers, 0);
    AllWritableIs(headers, 0);
    NamesReadBack(headers);
    StrippedAt(headers, 0);
    assert headers[0..] == headers;
    hide *;
  }
}
