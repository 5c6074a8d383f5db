/**
 * The list utilities: grouping by a key, sorting a copy by finishing
 * position, English ordinal suffixes, and the nationality-to-flag table.
 */
module GroupBy {
  import opened Wrappers
  import opened Text
  import opened Seqs
  import opened Sorting
  import opened Encoding

  /** The items whose key is `k`. */
  function HasKey<T, K(==)>(key: T -> K, k: K): T -> bool
  {
    (x: T) => key(x) == k
  }

  /** The total number of items in the groups named by `keys`. */
  function SizeSum<K, T>(groups: map<K, seq<T>>, keys: seq<K>): nat
    requires forall k :: k in keys ==> k in groups
  {
    if keys == [] then 0 else SizeSum(groups, keys[..|keys| - 1]) + |groups[keys[|keys| - 1]]|
  }

  /** Changing a group not named by `keys` leaves their size sum alone. */
  lemma {:induction false} SizeSumFrame<K, T>(groups: map<K, seq<T>>, keys: seq<K>, k: K, v: seq<T>)
    requires forall x :: x in keys ==> x in groups
    requires k !in keys
    ensures SizeSum(groups[k := v], keys) == SizeSum(groups, keys)
  {
    if keys != [] {
      SizeSumFrame(groups, keys[..|keys| - 1], k, v);
    }
  }

  /** Replacing the group of a key that occurs once in `keys` changes the sum by the size difference. */
  lemma {:induction false} SizeSumUpdate<K, T>(groups: map<K, seq<T>>, keys: seq<K>, k: K, v: seq<T>)
    requires forall x :: x in keys ==> x in groups
    requires Distinct(keys) && k in keys
    ensures SizeSum(groups[k := v], keys) + |groups[k]| == SizeSum(groups, keys) + |v|
  {
    var init := keys[..|keys| - 1];
    if keys[|keys| - 1] == k {
      assert k !in init by {
        forall a | 0 <= a < |init|
          ensures init[a] != k
        {
          assert keys[a] != keys[|keys| - 1];
        }
      }
      SizeSumFrame(groups, init, k, v);
    } else {
      assert k in init by {
        var a :| 0 <= a < |keys| && keys[a] == k;
        assert a < |keys| - 1;
        assert init[a] == k;
      }
      SizeSumUpdate(groups, init, k, v);
    }
  }

  /** The total of `f` over the items in the groups named by `keys`. */
  function GroupSum<K, T>(groups: map<K, seq<T>>, keys: seq<K>, f: T -> real): real
    requires forall k :: k in keys ==> k in groups
  {
    if keys == [] then 0.0 else GroupSum(groups, keys[..|keys| - 1], f) + SumBy(groups[keys[|keys| - 1]], f)
  }

  lemma {:induction false} GroupSumFrame<K, T>(groups: map<K, seq<T>>, keys: seq<K>, f: T -> real, k: K, v: seq<T>)
    requires forall x :: x in keys ==> x in groups
    requires k !in keys
    ensures GroupSum(groups[k := v], keys, f) == GroupSum(groups, keys, f)
  {
    if keys != [] {
      GroupSumFrame(groups, keys[..|keys| - 1], f, k, v);
    }
  }

  lemma GroupSumNewKey<K, T>(groups: map<K, seq<T>>, keys: seq<K>, f: T -> real, k: K, v: seq<T>)
    requires forall x :: x in keys ==> x in groups
    requires k !in keys
    ensures GroupSum(groups[k := v], keys + [k], f) == GroupSum(groups, keys, f) + SumBy(v, f)
  {
    var ks := keys + [k];
    assert ks[..|ks| - 1] == keys;
    GroupSumFrame(groups, keys, f, k, v);
  }

  lemma {:induction false} GroupSumUpdate<K, T>(groups: map<K, seq<T>>, keys: seq<K>, f: T -> real, k: K, v: seq<T>)
    requires forall x :: x in keys ==> x in groups
    requires Distinct(keys) && k in keys
    ensures GroupSum(groups[k := v], keys, f) + SumBy(groups[k], f) == GroupSum(groups, keys, f) + SumBy(v, f)
  {
    var init := keys[..|keys| - 1];
    if keys[|keys| - 1] == k {
      assert k !in init by {
        forall a | 0 <= a < |init|
          ensures init[a] != k
        {
          assert keys[a] != keys[|keys| - 1];
        }
      }
      GroupSumFrame(groups, init, f, k, v);
    } else {
      assert k in init by {
        var a :| 0 <= a < |keys| && keys[a] == k;
        assert a < |keys| - 1;
        assert init[a] == k;
      }
      GroupSumUpdate(groups, init, f, k, v);
    }
  }

  /** Appending one item to an existing group adds its value to the total. */
  lemma GroupSumAppend<K, T>(groups: map<K, seq<T>>, keys: seq<K>, f: T -> real, k: K, x: T, total: real)
    requires forall x :: x in keys ==> x in groups
    requires Distinct(keys) && k in keys && GroupSum(groups, keys, f) == total
    ensures GroupSum(groups[k := groups[k] + [x]], keys, f) == total + f(x)
  {
    GroupSumUpdate(groups, keys, f, k, groups[k] + [x]);
    SumBySnoc(groups[k], x, f);
  }

  /**
   * `groups` and `keys` are what grouping `seen` gives: every item sits in
   * its key's group, each group lists its items in input order, no group is
   * empty, `keys` names each group once, and the sizes add up to |seen|.
   */
  ghost predicate Grouping<T, K>(groups: map<K, seq<T>>, keys: seq<K>, seen: seq<T>, key: T -> K)
  {
    && (forall j :: 0 <= j < |seen| ==> key(seen[j]) in groups)
    && (forall k :: k in groups ==> groups[k] == Filter(seen, HasKey(key, k)))
    && (forall k :: k in groups ==> groups[k] != [])
    && ((forall k :: k in groups ==> k in keys) && (forall k :: k in keys ==> k in groups))
    && Distinct(keys)
    && SizeSum(groups, keys) == |seen|
  }

  /** The first item with a new key opens a group for it, at the end of the key order. */
  lemma GroupingNewKey<T, K>(groups: map<K, seq<T>>, keys: seq<K>, seen: seq<T>, key: T -> K, x: T)
    requires Grouping(groups, keys, seen, key) && key(x) !in groups
    ensures Grouping(groups[key(x) := [x]], keys + [key(x)], seen + [x], key)
  {
    var k := key(x);
    var g := groups[k := [x]];
    NewKeyFilters(groups, seen, key, x);
    assert k !in keys;
    DistinctSnoc(keys, k);
    SizeSumFrame(groups, keys, k, [x]);
    SizeSumSnoc(g, keys, k);
  }

  /** Each group, the new one included, still lists its key's items in input order. */
  lemma NewKeyFilters<T, K>(groups: map<K, seq<T>>, seen: seq<T>, key: T -> K, x: T)
    requires forall j :: 0 <= j < |seen| ==> key(seen[j]) in groups
    requires forall k :: k in groups ==> groups[k] == Filter(seen, HasKey(key, k))
    requires key(x) !in groups
    ensures forall k :: k in groups[key(x) := [x]] ==> groups[key(x) := [x]][k] == Filter(seen + [x], HasKey(key, k))
  {
    var k := key(x);
    var g := groups[k := [x]];
    forall k' | k' in g
      ensures g[k'] == Filter(seen + [x], HasKey(key, k'))
    {
      FilterSnoc(seen, x, HasKey(key, k'));
      if k' == k {
        FilterNone(seen, HasKey(key, k));
      }
    }
  }

  /** Appending a key adds the size of its group. */
  lemma SizeSumSnoc<K, T>(groups: map<K, seq<T>>, keys: seq<K>, k: K)
    requires forall x :: x in keys ==> x in groups
    requires k in groups
    ensures SizeSum(groups, keys + [k]) == SizeSum(groups, keys) + |groups[k]|
  {
    assert (keys + [k])[..|keys|] == keys;
  }

  /** An item whose key already has a group is pushed onto the end of it. */
  lemma GroupingExistingKey<T, K>(groups: map<K, seq<T>>, keys: seq<K>, seen: seq<T>, key: T -> K, x: T)
    requires Grouping(groups, keys, seen, key) && key(x) in groups
    ensures Grouping(groups[key(x) := groups[key(x)] + [x]], keys, seen + [x], key)
  {
    var k := key(x);
    forall k' | k' in groups
      ensures Filter(seen + [x], HasKey(key, k')) == groups[k'] + (if k' == k then [x] else [])
    {
      FilterSnoc(seen, x, HasKey(key, k'));
    }
    SizeSumUpdate(groups, keys, k, groups[k] + [x]);
  }

  /**
   * `groupBy(array, keyGetter)`: the `reduce` that creates a group the first
   * time a key is met and pushes every item onto its key's group. `keys` is
   * the record's key order, the order in which keys were first met.
   */
  method Group<T, K(==)>(items: seq<T>, key: T -> K) returns (groups: map<K, seq<T>>, keys: seq<K>)
    ensures forall i :: 0 <= i < |items| ==> key(items[i]) in groups
    ensures forall k :: k in groups ==> groups[k] == Filter(items, HasKey(key, k))
    ensures forall k :: k in groups ==> groups[k] != []
    ensures (forall k :: k in groups ==> k in keys) && (forall k :: k in keys ==> k in groups)
    ensures Distinct(keys)
    ensures SizeSum(groups, keys) == |items|
  {
    groups := map[];
    keys := [];
    var i := 0;
    while i < |items|
      invariant 0 <= i <= |items|
      invariant Grouping(groups, keys, items[..i], key)
    {
      var x := items[i];
      PrefixSnoc(items, i);
      var k := key(x);
      if k !in groups {
        GroupingNewKey(groups, keys, items[..i], key, x);
        groups := groups[k := [x]];
        keys := keys + [k];
      } else {
        GroupingExistingKey(groups, keys, items[..i], key, x);
        groups := groups[k := groups[k] + [x]];
      }
      i := i + 1;
    }
    assert items[..i] == items;
  }

  /** The position each item is sorted by, as `parseInt(position)` gives it. */
  method SortByPosition<T>(items: array<T>, position: T -> int) returns (sorted: array<T>)
    ensures fresh(sorted)
    ensures SortedBy(sorted[..], (x: T) => position(x) as real)
    ensures multiset(sorted[..]) == multiset(items[..])
  {
    sorted := new T[items.Length](i requires 0 <= i < items.Length reads items => items[i]);
    assert sorted[..] == items[..];
    SortInPlace(sorted, (x: T) => position(x) as real);
  }

  // ---------------------------------------------------------------------
  // Ordinals

  /** JavaScript's `%`: the remainder takes the sign of the dividend. */
  function JsRem(a: int, b: int): (r: int)
    requires b > 0
    ensures a >= 0 ==> 0 <= r < b && r == a % b
    ensures a < 0 ==> -b < r <= 0
  {
    if a >= 0 then a % b else -((-a) % b)
  }

  function OrdinalSuffix(position: int): string
  {
    var j := JsRem(position, 10);
    var k := JsRem(position, 100);
    if j == 1 && k != 11 then "st"
    else if j == 2 && k != 12 then "nd"
    else if j == 3 && k != 13 then "rd"
    else "th"
  }

  /** `getPositionOrdinal` */
  function PositionOrdinal(position: int): (r: string)
  {
    IntToString(position) + OrdinalSuffix(position)
  }

  /**
   * For non-negative positions: "st", "nd" and "rd" go with a last digit of
   * 1, 2 and 3 unless the last two digits are 11, 12 or 13; all else is "th".
   */
  lemma OrdinalSuffixRule(position: nat)
    ensures var last := position % 10; var lastTwo := position % 100;
      && (OrdinalSuffix(position) == "st" <==> last == 1 && lastTwo != 11)
      && (OrdinalSuffix(position) == "nd" <==> last == 2 && lastTwo != 12)
      && (OrdinalSuffix(position) == "rd" <==> last == 3 && lastTwo != 13)
      && (OrdinalSuffix(position) == "th" <==> !(last in {1, 2, 3} && lastTwo !in {11, 12, 13}))
  {}

  /** The teens, in every hundred, take "th". */
  lemma TeensTakeTh(hundreds: nat, unit: int)
    requires 11 <= unit <= 13
    ensures OrdinalSuffix(100 * hundreds + unit) == "th"
  {
    var p := 100 * hundreds + unit;
    var q := 10 * hundreds + 1;
    assert p == 100 * hundreds + unit && 0 <= unit < 100;
    assert p % 100 == unit;
    assert p == 10 * q + (unit - 10) && 0 <= unit - 10 < 10;
    assert p % 10 == unit - 10;
  }

  /** A negative position always gets "th", since its remainders are never positive. */
  lemma NegativeTakesTh(position: int)
    requires position < 0
    ensures OrdinalSuffix(position) == "th"
  {}

  /** The ordinal is the decimal number followed by its suffix; the number can be read back. */
  lemma OrdinalReadsBack(position: nat)
    ensures var r := PositionOrdinal(position); var n := |r| - 2;
      n >= 1 && AllDigits(r[..n]) && DigitsValue(r[..n]) == position && r[n..] == OrdinalSuffix(position)
  {
    var r := PositionOrdinal(position);
    assert r[..|r| - 2] == NatToString(position);
    NatToStringRoundTrip(position);
  }

  // ---------------------------------------------------------------------
  // Flags

  /**
   * `getFlagEmoji`'s table as the source file holds it. Each value is the
   * UTF-8 of a flag emoji read back as Windows-1254: eight characters, not a
   * flag. The Monaco key carries its 'é' misread the same way, as "Ã©".
   */
  const FlagTable: map<string, string> := map[
    "British" := "\U{11F}\U{178}\U{2021}\U{AC}\U{11F}\U{178}\U{2021}\U{A7}",
    "German" := "\U{11F}\U{178}\U{2021}\U{A9}\U{11F}\U{178}\U{2021}\U{AA}",
    "Spanish" := "\U{11F}\U{178}\U{2021}\U{AA}\U{11F}\U{178}\U{2021}\U{B8}",
    "French" := "\U{11F}\U{178}\U{2021}\U{AB}\U{11F}\U{178}\U{2021}\U{B7}",
    "Dutch" := "\U{11F}\U{178}\U{2021}\U{B3}\U{11F}\U{178}\U{2021}\U{B1}",
    "Finnish" := "\U{11F}\U{178}\U{2021}\U{AB}\U{11F}\U{178}\U{2021}\U{AE}",
    "Mexican" := "\U{11F}\U{178}\U{2021}\U{B2}\U{11F}\U{178}\U{2021}\U{BD}",
    "Australian" := "\U{11F}\U{178}\U{2021}\U{A6}\U{11F}\U{178}\U{2021}\U{BA}",
    "Canadian" := "\U{11F}\U{178}\U{2021}\U{A8}\U{11F}\U{178}\U{2021}\U{A6}",
    "Mon\U{C3}\U{A9}gasque" := "\U{11F}\U{178}\U{2021}\U{B2}\U{11F}\U{178}\U{2021}\U{A8}",
    "Thai" := "\U{11F}\U{178}\U{2021}\U{B9}\U{11F}\U{178}\U{2021}\U{AD}",
    "Japanese" := "\U{11F}\U{178}\U{2021}\U{AF}\U{11F}\U{178}\U{2021}\U{B5}",
    "Danish" := "\U{11F}\U{178}\U{2021}\U{A9}\U{11F}\U{178}\U{2021}\U{B0}",
    "Chinese" := "\U{11F}\U{178}\U{2021}\U{A8}\U{11F}\U{178}\U{2021}\U{B3}",
    "American" := "\U{11F}\U{178}\U{2021}\U{BA}\U{11F}\U{178}\U{2021}\U{B8}",
    "Brazilian" := "\U{11F}\U{178}\U{2021}\U{A7}\U{11F}\U{178}\U{2021}\U{B7}",
    "Italian" := "\U{11F}\U{178}\U{2021}\U{AE}\U{11F}\U{178}\U{2021}\U{B9}",
    "Austrian" := "\U{11F}\U{178}\U{2021}\U{A6}\U{11F}\U{178}\U{2021}\U{B9}",
    "Swiss" := "\U{11F}\U{178}\U{2021}\U{A8}\U{11F}\U{178}\U{2021}\U{AD}",
    "Belgian" := "\U{11F}\U{178}\U{2021}\U{A7}\U{11F}\U{178}\U{2021}\U{AA}"]

  /** The fallback as the file holds it: the chequered flag misread, of which two characters survive. */
  const FlagFallback: string := "\U{11F}\U{178}"

  /** `getFlagEmoji`: `flagMap[nationality] || fallback`. */
  function FlagEmoji(nationality: string): string
  {
    if nationality in FlagTable && FlagTable[nationality] != "" then FlagTable[nationality] else FlagFallback
  }

  /** The nationalities the table evidently means, with the country each flag stands for. */
  const FlagCountries: map<string, string> := map[
    "British" := "GB", "German" := "DE", "Spanish" := "ES", "French" := "FR",
    "Dutch" := "NL", "Finnish" := "FI", "Mexican" := "MX", "Australian" := "AU",
    "Canadian" := "CA", "Mon\U{E9}gasque" := "MC", "Thai" := "TH", "Japanese" := "JP",
    "Danish" := "DK", "Chinese" := "CN", "American" := "US", "Brazilian" := "BR",
    "Italian" := "IT", "Austrian" := "AT", "Swiss" := "CH", "Belgian" := "BE"]

  /** The chequered flag the fallback evidently means. */
  const ChequeredFlag: string := "\U{1F3C1}"

  predicate IsCapital(c: char) { 'A' <= c <= 'Z' }

  /** The regional indicator symbol for a capital letter. */
  function RegionalIndicator(c: char): (r: char)
    requires IsCapital(c)
    ensures 0x1F1E6 <= r as int <= 0x1F1FF
  {
    (0x1F1E6 + (c as int - 'A' as int)) as char
  }

  /** A flag emoji: the two regional indicators spelling a country code. */
  function Flag(country: string): string
    requires |country| == 2 && IsCapital(country[0]) && IsCapital(country[1])
  {
    [RegionalIndicator(country[0]), RegionalIndicator(country[1])]
  }

  /** `getFlagEmoji` as evidently intended: the listed country's flag, else the chequered flag. */
  function IntendedFlagEmoji(nationality: string): string
  {
    if nationality in FlagCountries then
      var country := FlagCountries[nationality];
      assert |country| == 2 && IsCapital(country[0]) && IsCapital(country[1]);
      Flag(country)
    else ChequeredFlag
  }

  /** The country code a flag emoji spells, if it is one. */
  function FlagCountry(emoji: string): Option<string>
  {
    if |emoji| == 2 && 0x1F1E6 <= emoji[0] as int <= 0x1F1FF && 0x1F1E6 <= emoji[1] as int <= 0x1F1FF then
      Some([('A' as int + (emoji[0] as int - 0x1F1E6)) as char, ('A' as int + (emoji[1] as int - 0x1F1E6)) as char])
    else None
  }

  /**
   * What `getFlagEmoji` returns: a table key gets its eight-character table
   * value, anything else the two-character fallback. Neither spells a
   * country, and "Monégasque" is not a key.
   */
  lemma FlagEmojiSpec(nationality: string)
    ensures nationality in FlagTable ==> FlagEmoji(nationality) == FlagTable[nationality] && |FlagEmoji(nationality)| == 8
    ensures nationality !in FlagTable ==> FlagEmoji(nationality) == FlagFallback
    ensures FlagCountry(FlagEmoji(nationality)).None?
    ensures "Mon\U{E9}gasque" !in FlagTable
  {
    assert forall k :: k in FlagTable ==> |FlagTable[k]| == 8 && FlagTable[k][0] == '\U{11F}';
  }

  /**
   * The intended table: a listed nationality gets the flag of its country
   * (the emoji spells the country code back); any other gets the chequered
   * flag, which spells no country.
   */
  lemma IntendedFlagEmojiSpec(nationality: string)
    ensures nationality in FlagCountries ==> FlagCountry(IntendedFlagEmoji(nationality)) == Some(FlagCountries[nationality])
    ensures nationality !in FlagCountries ==> IntendedFlagEmoji(nationality) == ChequeredFlag && FlagCountry(ChequeredFlag).None?
  {
    if nationality in FlagCountries {
      var country := FlagCountries[nationality];
      assert |country| == 2 && IsCapital(country[0]) && IsCapital(country[1]);
      assert FlagCountry(Flag(country)) == Some([country[0], country[1]]);
      assert [country[0], country[1]] == country;
    }
  }

  /** A regional indicator misread: 'ğ', 'Ÿ', '‡' and the Latin-1 symbol 0xA6 + the letter's offset. */
  function GarbledIndicator(c: char): string
    requires IsCapital(c)
  {
    ['\U{11F}', '\U{178}', '\U{2021}', (0xA6 + (c as int - 'A' as int)) as char]
  }

  /** A regional indicator is the four UTF-8 bytes F0 9F 87 and A6 + the letter's offset. */
  lemma IndicatorBytes(c: char)
    requires IsCapital(c)
    ensures Utf8Char(RegionalIndicator(c)) == [0xF0, 0x9F, 0x87, (0xA6 + (c as int - 'A' as int)) as byte]
  {
    var k := c as int - 'A' as int;
    var n := RegionalIndicator(c) as int;
    assert n == 0x1F1E6 + k && 0 <= k < 26;
    assert n / 0x40000 == 0;
    assert n == 4096 * 0x1F + (0x1E6 + k) && 0x1E6 + k < 4096;
    assert n / 4096 == 0x1F;
    assert n == 64 * 0x7C7 + (0x26 + k) && 0x26 + k < 64;
    assert n / 64 == 0x7C7 && n % 64 == 0x26 + k;
    assert 0x7C7 % 64 == 0x07;
  }

  lemma IndicatorMisread(c: char)
    requires IsCapital(c)
    ensures Misread(Utf8([RegionalIndicator(c)])) == GarbledIndicator(c)
  {
    var k := c as int - 'A' as int;
    var bs := Utf8Char(RegionalIndicator(c));
    IndicatorBytes(c);
    MisreadChar(RegionalIndicator(c));
    assert bs[1..][1..][1..][1..] == [];
    assert Misread(bs[1..][1..][1..]) == [(0xA6 + k) as char];
    assert Misread(bs[1..][1..]) == ['\U{2021}', (0xA6 + k) as char];
  }

  lemma FlagMisread(country: string)
    requires |country| == 2 && IsCapital(country[0]) && IsCapital(country[1])
    ensures Misread(Utf8(Flag(country))) == GarbledIndicator(country[0]) + GarbledIndicator(country[1])
  {
    var a, b := RegionalIndicator(country[0]), RegionalIndicator(country[1]);
    assert Flag(country) == [a] + [b];
    Utf8Concat([a], [b]);
    MisreadConcat(Utf8([a]), Utf8([b]));
    IndicatorMisread(country[0]);
    IndicatorMisread(country[1]);
  }

  /** The key the table holds for an intended nationality. */
  function TableKey(nationality: string): string
  {
    if nationality == "Mon\U{E9}gasque" then "Mon\U{C3}\U{A9}gasque" else nationality
  }

  /**
   * The table's rows, a few at a time (the first keys of a map display are
   * the dearest to look up): each value is its country's two indicators misread.
   */
  lemma TableRowsMisread1()
    ensures FlagCountries["British"] == "GB" && FlagTable["British"] == GarbledIndicator('G') + GarbledIndicator('B')
    ensures FlagCountries["German"] == "DE" && FlagTable["German"] == GarbledIndicator('D') + GarbledIndicator('E')
  {}

  lemma TableRowsMisread2()
    ensures FlagCountries["Spanish"] == "ES" && FlagTable["Spanish"] == GarbledIndicator('E') + GarbledIndicator('S')
    ensures FlagCountries["French"] == "FR" && FlagTable["French"] == GarbledIndicator('F') + GarbledIndicator('R')
  {}

  lemma TableRowsMisread3()
    ensures FlagCountries["Dutch"] == "NL" && FlagTable["Dutch"] == GarbledIndicator('N') + GarbledIndicator('L')
    ensures FlagCountries["Finnish"] == "FI" && FlagTable["Finnish"] == GarbledIndicator('F') + GarbledIndicator('I')
    ensures FlagCountries["Mexican"] == "MX" && FlagTable["Mexican"] == GarbledIndicator('M') + GarbledIndicator('X')
  {}

  lemma TableRowsMisread4()
    ensures FlagCountries["Australian"] == "AU" && FlagTable["Australian"] == GarbledIndicator('A') + GarbledIndicator('U')
    ensures FlagCountries["Canadian"] == "CA" && FlagTable["Canadian"] == GarbledIndicator('C') + GarbledIndicator('A')
  {}

  lemma TableRowsMisread5()
    ensures FlagCountries["Mon\U{E9}gasque"] == "MC" && FlagTable["Mon\U{C3}\U{A9}gasque"] == GarbledIndicator('M') + GarbledIndicator('C')
  {}

  lemma TableRowsMisread6()
    ensures FlagCountries["Thai"] == "TH" && FlagTable["Thai"] == GarbledIndicator('T') + GarbledIndicator('H')
    ensures FlagCountries["Japanese"] == "JP" && FlagTable["Japanese"] == GarbledIndicator('J') + GarbledIndicator('P')
    ensures FlagCountries["Danish"] == "DK" && FlagTable["Danish"] == GarbledIndicator('D') + GarbledIndicator('K')
    ensures FlagCountries["Chinese"] == "CN" && FlagTable["Chinese"] == GarbledIndicator('C') + GarbledIndicator('N')
  {}

  lemma TableRowsMisread7()
    ensures FlagCountries["American"] == "US" && FlagTable["American"] == GarbledIndicator('U') + GarbledIndicator('S')
    ensures FlagCountries["Brazilian"] == "BR" && FlagTable["Brazilian"] == GarbledIndicator('B') + GarbledIndicator('R')
    ensures FlagCountries["Italian"] == "IT" && FlagTable["Italian"] == GarbledIndicator('I') + GarbledIndicator('T')
    ensures FlagCountries["Austrian"] == "AT" && FlagTable["Austrian"] == GarbledIndicator('A') + GarbledIndicator('T')
    ensures FlagCountries["Swiss"] == "CH" && FlagTable["Swiss"] == GarbledIndicator('C') + GarbledIndicator('H')
    ensures FlagCountries["Belgian"] == "BE" && FlagTable["Belgian"] == GarbledIndicator('B') + GarbledIndicator('E')
  {}

  /** Every intended nationality but "Monégasque" is plain ASCII. */
  lemma AsciiNationalities()
    ensures forall n :: n in FlagCountries && n != "Mon\U{E9}gasque" ==> IsAscii(n)
  {}

  /** "Monégasque" misread: its 'é' becomes 'Ã' and '©'. */
  lemma MonegasqueMisread(n: string)
    requires n == "Mon\U{E9}gasque"
    ensures Misread(Utf8(n)) == "Mon\U{C3}\U{A9}gasque"
  {
    assert n == "Mon" + ['\U{E9}'] + "gasque";
    LatinWordMisread("Mon", '\U{E9}', "gasque");
  }

  /** The key the table holds for an intended nationality is that nationality misread. */
  lemma KeyMisread(n: string)
    requires n in FlagCountries
    ensures Misread(Utf8(n)) == TableKey(n)
  {
    if n == "Mon\U{E9}gasque" {
      MonegasqueMisread(n);
    } else {
      AsciiNationalities();
      AsciiSurvives(n);
    }
  }

  /** The table's row for a nationality of each group: its country's two indicators misread. */
  lemma RowGroup1(n: string)
    requires n in {"British", "German"}
    ensures n in FlagCountries && |FlagCountries[n]| == 2 && IsCapital(FlagCountries[n][0]) && IsCapital(FlagCountries[n][1])
    ensures TableKey(n) in FlagTable && FlagTable[TableKey(n)] == GarbledIndicator(FlagCountries[n][0]) + GarbledIndicator(FlagCountries[n][1])
  {
    TableRowsMisread1();
  }

  lemma RowGroup2(n: string)
    requires n in {"Spanish", "French"}
    ensures n in FlagCountries && |FlagCountries[n]| == 2 && IsCapital(FlagCountries[n][0]) && IsCapital(FlagCountries[n][1])
    ensures TableKey(n) in FlagTable && FlagTable[TableKey(n)] == GarbledIndicator(FlagCountries[n][0]) + GarbledIndicator(FlagCountries[n][1])
  {
    TableRowsMisread2();
  }

  lemma RowGroup3(n: string)
    requires n in {"Dutch", "Finnish", "Mexican"}
    ensures n in FlagCountries && |FlagCountries[n]| == 2 && IsCapital(FlagCountries[n][0]) && IsCapital(FlagCountries[n][1])
    ensures TableKey(n) in FlagTable && FlagTable[TableKey(n)] == GarbledIndicator(FlagCountries[n][0]) + GarbledIndicator(FlagCountries[n][1])
  {
    TableRowsMisread3();
  }

  lemma RowGroup4(n: string)
    requires n in {"Australian", "Canadian"}
    ensures n in FlagCountries && |FlagCountries[n]| == 2 && IsCapital(FlagCountries[n][0]) && IsCapital(FlagCountries[n][1])
    ensures TableKey(n) in FlagTable && FlagTable[TableKey(n)] == GarbledIndicator(FlagCountries[n][0]) + GarbledIndicator(FlagCountries[n][1])
  {
    TableRowsMisread4();
  }

  lemma RowGroup5(n: string)
    requires n == "Mon\U{E9}gasque"
    ensures n in FlagCountries && |FlagCountries[n]| == 2 && IsCapital(FlagCountries[n][0]) && IsCapital(FlagCountries[n][1])
    ensures TableKey(n) in FlagTable && FlagTable[TableKey(n)] == GarbledIndicator(FlagCountries[n][0]) + GarbledIndicator(FlagCountries[n][1])
  {
    TableRowsMisread5();
  }

  lemma RowGroup6(n: string)
    requires n in {"Thai", "Japanese", "Danish", "Chinese"}
    ensures n in FlagCountries && |FlagCountries[n]| == 2 && IsCapital(FlagCountries[n][0]) && IsCapital(FlagCountries[n][1])
    ensures TableKey(n) in FlagTable && FlagTable[TableKey(n)] == GarbledIndicator(FlagCountries[n][0]) + GarbledIndicator(FlagCountries[n][1])
  {
    TableRowsMisread6();
  }

  lemma RowGroup7(n: string)
    requires n in {"American", "Brazilian", "Italian", "Austrian", "Swiss", "Belgian"}
    ensures n in FlagCountries && |FlagCountries[n]| == 2 && IsCapital(FlagCountries[n][0]) && IsCapital(FlagCountries[n][1])
    ensures TableKey(n) in FlagTable && FlagTable[TableKey(n)] == GarbledIndicator(FlagCountries[n][0]) + GarbledIndicator(FlagCountries[n][1])
  {
    TableRowsMisread7();
  }

  /** The table's row for an intended nationality: its country's two indicators misread. */
  lemma TableRow(n: string)
    requires n in FlagCountries
    ensures |FlagCountries[n]| == 2 && IsCapital(FlagCountries[n][0]) && IsCapital(FlagCountries[n][1])
    ensures TableKey(n) in FlagTable && FlagTable[TableKey(n)] == GarbledIndicator(FlagCountries[n][0]) + GarbledIndicator(FlagCountries[n][1])
  {
    assert n in {"British", "German", "Spanish", "French",
      "Dutch", "Finnish", "Mexican", "Australian",
      "Canadian", "Mon\U{E9}gasque", "Thai", "Japanese",
      "Danish", "Chinese", "American", "Brazilian",
      "Italian", "Austrian", "Swiss", "Belgian"};
    if n in {"British", "German"} {
      RowGroup1(n);
    } else if n in {"Spanish", "French"} {
      RowGroup2(n);
    } else if n in {"Dutch", "Finnish", "Mexican"} {
      RowGroup3(n);
    } else if n in {"Australian", "Canadian"} {
      RowGroup4(n);
    } else if n == "Mon\U{E9}gasque" {
      RowGroup5(n);
    } else if n in {"Thai", "Japanese", "Danish", "Chinese"} {
      RowGroup6(n);
    } else {
      RowGroup7(n);
    }
  }

  /** One entry of the table: its key and value are the intended ones misread. */
  lemma FlagEntryMisread(n: string)
    requires n in FlagCountries
    ensures Misread(Utf8(n)) in FlagTable && FlagTable[Misread(Utf8(n))] == Misread(Utf8(IntendedFlagEmoji(n)))
  {
    TableRow(n);
    FlagMisread(FlagCountries[n]);
    KeyMisread(n);
  }

  /** The table holds no other keys. */
  lemma TableKeys()
    ensures forall k :: k in FlagTable ==> k in FlagCountries || k == "Mon\U{C3}\U{A9}gasque"
  {}

  /** The fallback is the chequered flag misread: its last two bytes are undefined and dropped. */
  lemma FallbackMisread()
    ensures FlagFallback == Misread(Utf8(ChequeredFlag))
  {
    var bs := Utf8Char('\U{1F3C1}');
    assert bs == [0xF0, 0x9F, 0x8F, 0x81];
    MisreadChar('\U{1F3C1}');
    assert bs[1..][1..][1..][1..] == [];
    assert Misread(bs[1..][1..]) == [];
  }

  /**
   * The table as written is the intended table misread: each intended
   * nationality, misread, is a key whose value is its flag misread, there
   * are no other keys, and the fallback is the chequered flag misread.
   */
  lemma FlagTableIsMisread()
    ensures forall k :: k in FlagTable ==> k in FlagCountries || k == "Mon\U{C3}\U{A9}gasque"
    ensures forall n :: n in FlagCountries ==>
      Misread(Utf8(n)) in FlagTable && FlagTable[Misread(Utf8(n))] == Misread(Utf8(IntendedFlagEmoji(n)))
    ensures FlagFallback == Misread(Utf8(ChequeredFlag))
  {
    forall n | n in FlagCountries
      ensures Misread(Utf8(n)) in FlagTable && FlagTable[Misread(Utf8(n))] == Misread(Utf8(IntendedFlagEmoji(n)))
    {
      FlagEntryMisread(n);
    }
    TableKeys();
    FallbackMisread();
  }

  /**
   * The discrepancy: "British" shows eight stray characters instead of the
   * British flag, and "Monégasque" misses its misread key and shows the
   * fallback instead of the Monaco flag.
   */
  lemma GarbledFlags()
    ensures FlagEmoji("British") != IntendedFlagEmoji("British")
    ensures FlagEmoji("British") == "\U{11F}\U{178}\U{2021}\U{AC}\U{11F}\U{178}\U{2021}\U{A7}"
    ensures FlagEmoji("Mon\U{E9}gasque") == FlagFallback && IntendedFlagEmoji("Mon\U{E9}gasque") == Flag("MC")
  {
    assert |IntendedFlagEmoji("British")| == 2;
  }
}
