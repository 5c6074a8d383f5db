/**
 * Driver portraits: the table from normalised driver code to image URL, the
 * default portrait, initials as a fallback, and the choice between them.
 */
module DriverImages {
  import opened Wrappers
  import opened Domain

  /** Portrait URLs by normalised code (the family name in lower-case letters). */
  const DriverImageUrls: map<string, string> := map[
    "verstappen" := "https://www.formula1.com/content/dam/fom-website/drivers/M/MAXVER01_Max_Verstappen/maxver01.png.transform/1col/image.png",
    "perez" := "https://www.formula1.com/content/dam/fom-website/drivers/S/SERPER01_Sergio_Perez/serper01.png.transform/1col/image.png",
    "hamilton" := "https://www.formula1.com/content/dam/fom-website/drivers/L/LEWHAM01_Lewis_Hamilton/lewham01.png.transform/1col/image.png",
    "russell" := "https://www.formula1.com/content/dam/fom-website/drivers/G/GEORUS01_George_Russell/georus01.png.transform/1col/image.png",
    "leclerc" := "https://www.formula1.com/content/dam/fom-website/drivers/C/CHALEC01_Charles_Leclerc/chalec01.png.transform/1col/image.png",
    "sainz" := "https://www.formula1.com/content/dam/fom-website/drivers/C/CARSAI01_Carlos_Sainz/carsai01.png.transform/1col/image.png",
    "norris" := "https://www.formula1.com/content/dam/fom-website/drivers/L/LANNOR01_Lando_Norris/lannor01.png.transform/1col/image.png",
    "piastri" := "https://www.formula1.com/content/dam/fom-website/drivers/O/OSCPIA01_Oscar_Piastri/oscpia01.png.transform/1col/image.png",
    "alonso" := "https://www.formula1.com/content/dam/fom-website/drivers/F/FERALO01_Fernando_Alonso/feralo01.png.transform/1col/image.png",
    "stroll" := "https://www.formula1.com/content/dam/fom-website/drivers/L/LANSTR01_Lance_Stroll/lanstr01.png.transform/1col/image.png",
    "gasly" := "https://www.formula1.com/content/dam/fom-website/drivers/P/PIEGAS01_Pierre_Gasly/piegas01.png.transform/1col/image.png",
    "ocon" := "https://www.formula1.com/content/dam/fom-website/drivers/E/ESTOCO01_Esteban_Ocon/estoco01.png.transform/1col/image.png",
    "albon" := "https://www.formula1.com/content/dam/fom-website/drivers/A/ALEX_ALBON_01.png.transform/1col/image.png",
    "sargeant" := "https://www.formula1.com/content/dam/fom-website/drivers/L/LOGSAR01_Logan_Sargeant/logsar01.png.transform/1col/image.png",
    "colapinto" := "https://www.formula1.com/content/dam/fom-website/drivers/F/FRACOL01_Franco_Colapinto/fracol01.png.transform/1col/image.png",
    "tsunoda" := "https://www.formula1.com/content/dam/fom-website/drivers/Y/YUKTSU01_Yuki_Tsunoda/yuktsu01.png.transform/1col/image.png",
    "ricciardo" := "https://www.formula1.com/content/dam/fom-website/drivers/D/DANRIC01_Daniel_Ricciardo/danric01.png.transform/1col/image.png",
    "lawson" := "https://www.formula1.com/content/dam/fom-website/drivers/L/LIALAW01_Liam_Lawson/lialaw01.png.transform/1col/image.png",
    "hulkenberg" := "https://www.formula1.com/content/dam/fom-website/drivers/N/NICHUL01_Nico_Hulkenberg/nichul01.png.transform/1col/image.png",
    "magnussen" := "https://www.formula1.com/content/dam/fom-website/drivers/K/KEVMAG01_Kevin_Magnussen/kevmag01.png.transform/1col/image.png",
    "bottas" := "https://www.formula1.com/content/dam/fom-website/drivers/V/VALBOT01_Valtteri_Bottas/valbot01.png.transform/1col/image.png",
    "zhou" := "https://www.formula1.com/content/dam/fom-website/drivers/G/GUAZHO01_Guanyu_Zhou/guazho01.png.transform/1col/image.png"]

  const DefaultDriverImage: string := "https://www.formula1.com/content/dam/fom-website/drivers/default-driver.png"

  predicate IsLowerLetter(c: char) { 'a' <= c <= 'z' }

  predicate Normalised(s: string) { forall i :: 0 <= i < |s| ==> IsLowerLetter(s[i]) }

  /** `toLowerCase` on one character; letters outside A-Z are left as they are. */
  function LowerAscii(c: char): char
  {
    if 'A' <= c <= 'Z' then (c as int - 'A' as int + 'a' as int) as char else c
  }

  /** `toUpperCase` on one character; letters outside a-z are left as they are. */
  function UpperAscii(c: char): char
  {
    if 'a' <= c <= 'z' then (c as int - 'a' as int + 'A' as int) as char else c
  }

  /** `code.toLowerCase().replace(/[^a-z]/g, '')` */
  function NormaliseCode(code: string): string
  {
    if code == [] then []
    else
      var c := LowerAscii(code[|code| - 1]);
      NormaliseCode(code[..|code| - 1]) + (if IsLowerLetter(c) then [c] else [])
  }

  /** The normalised code holds only a-z, and normalising leaves exactly the all-a-z strings unchanged. */
  lemma {:induction false} NormaliseCodeSpec(code: string)
    ensures Normalised(NormaliseCode(code))
    ensures NormaliseCode(code) == code <==> Normalised(code)
    ensures |NormaliseCode(code)| <= |code|
  {
    if code != [] {
      NormaliseCodeSpec(code[..|code| - 1]);
      var init := code[..|code| - 1];
      var last := code[|code| - 1];
      if Normalised(code) {
        assert Normalised(init) by {
          forall i | 0 <= i < |init|
            ensures IsLowerLetter(init[i])
          {
            assert init[i] == code[i];
          }
        }
        assert IsLowerLetter(last);
        assert code == init + [last];
      }
    }
  }

  /** Normalisation works character by character. */
  lemma {:induction false} NormaliseConcat(a: string, b: string)
    ensures NormaliseCode(a + b) == NormaliseCode(a) + NormaliseCode(b)
  {
    if b != [] {
      NormaliseConcat(a, b[..|b| - 1]);
      assert (a + b)[..|a + b| - 1] == a + b[..|b| - 1];
    } else {
      assert a + b == a;
    }
  }

  /** Normalising twice is normalising once. */
  lemma NormaliseIdempotent(code: string)
    ensures NormaliseCode(NormaliseCode(code)) == NormaliseCode(code)
  {
    NormaliseCodeSpec(code);
    NormaliseCodeSpec(NormaliseCode(code));
  }

  /** `getDriverImage` */
  function DriverImage(driverCode: string): string
  {
    var key := NormaliseCode(driverCode);
    if key in DriverImageUrls then DriverImageUrls[key] else DefaultDriverImage
  }

  /** Every table entry is a non-empty portrait distinct from the default one. */
  lemma TableShape()
    ensures forall k :: k in DriverImageUrls ==> DriverImageUrls[k] != DefaultDriverImage && DriverImageUrls[k] != ""
  {}

  /**
   * The image depends only on the normalised code: a code whose letters
   * spell a table key, in any case and with any other characters mixed in,
   * gets that key's portrait; every other code gets the default.
   */
  lemma DriverImageSpec(driverCode: string)
    ensures DriverImage(driverCode) == DriverImage(NormaliseCode(driverCode))
    ensures NormaliseCode(driverCode) in DriverImageUrls ==> DriverImage(driverCode) == DriverImageUrls[NormaliseCode(driverCode)]
    ensures NormaliseCode(driverCode) !in DriverImageUrls ==> DriverImage(driverCode) == DefaultDriverImage
  {
    NormaliseIdempotent(driverCode);
  }

  lemma NormaliseOne(c: char)
    ensures NormaliseCode([c]) == if IsLowerLetter(LowerAscii(c)) then [LowerAscii(c)] else []
  {
    assert [c][..0] == [];
  }

  lemma NormaliseLetters(s: string)
    requires Normalised(s)
    ensures NormaliseCode(s) == s
  {
    NormaliseCodeSpec(s);
  }

  /** Case does not matter: the capital is folded. */
  lemma NormaliseCapitalised()
    ensures NormaliseCode("Verstappen") == "verstappen"
  {
    var a, b := "V", "erstappen";
    NormaliseConcat(a, b);
    NormaliseOne('V');
    NormaliseLetters(b);
    assert a + b == "Verstappen";
  }

  /** A letter outside a-z is dropped rather than folded. */
  lemma NormaliseAccented()
    ensures NormaliseCode("H\U{FC}lkenberg") == "hlkenberg"
  {
    var a, b := "H\U{FC}", "lkenberg";
    assert "H\U{FC}lkenberg" == a + b;
    NormaliseConcat(a, b);
    assert NormaliseCode(a) == "h";
    NormaliseLetters(b);
  }

  /** The family name as the API spells it, with its umlaut, misses its own table entry. */
  lemma AccentedNameGetsDefault()
    ensures "hulkenberg" in DriverImageUrls
    ensures DriverImage("H\U{FC}lkenberg") == DefaultDriverImage
  {
    NormaliseAccented();
    assert "hlkenberg" !in DriverImageUrls;
  }

  /** `getDriverInitials`: the upper-cased first character of each name, skipping empty names. */
  function Initials(givenName: string, familyName: string): (r: string)
    ensures |r| == (if givenName == "" then 0 else 1) + (if familyName == "" then 0 else 1)
    ensures givenName != "" ==> r[0] == UpperAscii(givenName[0])
    ensures familyName != "" ==> r[|r| - 1] == UpperAscii(familyName[0])
  {
    var first := if givenName == "" then "" else [UpperAscii(givenName[0])];
    var last := if familyName == "" then "" else [UpperAscii(familyName[0])];
    first + last
  }

  datatype Avatar = Avatar(imageUrl: Option<string>, initials: string, hasImage: bool)

  /** `getDriverImageOrInitials` */
  function ImageOrInitials(givenName: string, familyName: string, driverCode: Option<string>): Avatar
  {
    var code := OrDefault(driverCode, familyName);
    var imageUrl := DriverImage(code);
    var hasImage := NormaliseCode(code) in DriverImageUrls;
    Avatar(if hasImage then Some(imageUrl) else None, Initials(givenName, familyName), hasImage)
  }

  /**
   * The code is the driver code when one is given and not empty, else the
   * family name. There is an image exactly when that code's normalisation is
   * a table key, and then it is the table's portrait, never the default;
   * the initials are always provided.
   */
  lemma ImageOrInitialsSpec(givenName: string, familyName: string, driverCode: Option<string>)
    ensures var a := ImageOrInitials(givenName, familyName, driverCode);
      var code := if driverCode.Some? && driverCode.value != "" then driverCode.value else familyName;
      && (a.hasImage <==> NormaliseCode(code) in DriverImageUrls)
      && (a.imageUrl.None? <==> !a.hasImage)
      && (a.hasImage ==> a.imageUrl == Some(DriverImageUrls[NormaliseCode(code)]) && a.imageUrl.value != DefaultDriverImage)
      && a.initials == Initials(givenName, familyName)
  {
    TableShape();
  }
}
