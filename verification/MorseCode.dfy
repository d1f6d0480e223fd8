/**
 The letters of International Morse (ITU-R M.1677-1, Annex 1, Part I, section 1.1) that
 the message compiler knows, and their key into the tree of dots and dashes.
 */
module MorseCode {
  predicate Space(c: char) {
    c == ' ' || c == '\t' || c == '\n' || c == '\r' || c == '\U{000C}' || c == '\U{000B}'
  }

  function Upper(c: char): char {
    if 'a' <= c <= 'z' then (c as int - 'a' as int + 'A' as int) as char else c
  }

  /** The code of an uppercase letter, a figure or a mark; empty for anything else. */
  function Table(c: char): (code: string)
    ensures |code| <= 6
  {
    match c
    case 'A' => ".-"
    case 'B' => "-..."
    case 'C' => "-.-."
    case 'D' => "-.."
    case 'E' => "."
    case 'F' => "..-."
    case 'G' => "--."
    case 'H' => "...."
    case 'I' => ".."
    case 'J' => ".---"
    case 'K' => "-.-"
    case 'L' => ".-.."
    case 'M' => "--"
    case 'N' => "-."
    case 'O' => "---"
    case 'P' => ".--."
    case 'Q' => "--.-"
    case 'R' => ".-."
    case 'S' => "..."
    case 'T' => "-"
    case 'U' => "..-"
    case 'V' => "...-"
    case 'W' => ".--"
    case 'X' => "-..-"
    case 'Y' => "-.--"
    case 'Z' => "--.."
    case '0' => "-----"
    case '1' => ".----"
    case '2' => "..---"
    case '3' => "...--"
    case '4' => "....-"
    case '5' => "....."
    case '6' => "-...."
    case '7' => "--..."
    case '8' => "---.."
    case '9' => "----."
    case '/' => "-..-."
    case '?' => "..--.."
    case '.' => ".-.-.-"
    case ',' => "--..--"
    case '-' => "-....-"
    case '+' => ".-.-."
    case '=' => "-...-"
    case _ => ""
  }

  function Code(c: char): (code: string)
    ensures |code| <= 6
  {
    Table(Upper(c))
  }

  predicate Keyable(c: char) { Code(c) != "" }

  predicate DotsAndDashes(code: string) {
    forall i :: 0 <= i < |code| ==> code[i] == '.' || code[i] == '-'
  }

  lemma TableIsKeyed(c: char)
    ensures DotsAndDashes(Table(c))
  {}

  function Digit(code: string, i: nat): nat {
    if i >= |code| then 0 else if code[i] == '-' then 2 else 1
  }

  /** A code of at most six dots and dashes as one number. */
  function Key(code: string): nat {
    Digit(code, 0) + 3 * Digit(code, 1) + 9 * Digit(code, 2)
    + 27 * Digit(code, 3) + 81 * Digit(code, 4) + 243 * Digit(code, 5)
  }

  function AtKey(key: nat): char {
    match key
    case 1 => 'E'
    case 2 => 'T'
    case 4 => 'I'
    case 5 => 'N'
    case 7 => 'A'
    case 8 => 'M'
    case 13 => 'S'
    case 14 => 'D'
    case 16 => 'R'
    case 17 => 'G'
    case 22 => 'U'
    case 23 => 'K'
    case 25 => 'W'
    case 26 => 'O'
    case 40 => 'H'
    case 41 => 'B'
    case 43 => 'L'
    case 44 => 'Z'
    case 49 => 'F'
    case 50 => 'C'
    case 52 => 'P'
    case 67 => 'V'
    case 68 => 'X'
    case 71 => 'Q'
    case 77 => 'Y'
    case 79 => 'J'
    case 121 => '5'
    case 122 => '6'
    case 125 => '7'
    case 134 => '8'
    case 149 => '/'
    case 151 => '+'
    case 161 => '9'
    case 202 => '4'
    case 203 => '='
    case 229 => '3'
    case 238 => '2'
    case 241 => '1'
    case 242 => '0'
    case 400 => '?'
    case 608 => '-'
    case 637 => '.'
    case 692 => ','
    case _ => ' '
  }

  lemma LettersAReadBack(c: char)
    requires 'A' <= c <= 'G'
    ensures AtKey(Key(Table(c))) == c
  {
    match c
    case 'A' => assert Key(".-") == 7;
    case 'B' => assert Key("-...") == 41;
    case 'C' => assert Key("-.-.") == 50;
    case 'D' => assert Key("-..") == 14;
    case 'E' => assert Key(".") == 1;
    case 'F' => assert Key("..-.") == 49;
    case 'G' => assert Key("--.") == 17;
    case _ =>
  }

  lemma LettersHReadBack(c: char)
    requires 'H' <= c <= 'M'
    ensures AtKey(Key(Table(c))) == c
  {
    match c
    case 'H' => assert Key("....") == 40;
    case 'I' => assert Key("..") == 4;
    case 'J' => assert Key(".---") == 79;
    case 'K' => assert Key("-.-") == 23;
    case 'L' => assert Key(".-..") == 43;
    case 'M' => assert Key("--") == 8;
    case _ =>
  }

  lemma LettersNReadBack(c: char)
    requires 'N' <= c <= 'Q'
    ensures AtKey(Key(Table(c))) == c
  {
    match c
    case 'N' => assert Key("-.") == 5;
    case 'O' => assert Key("---") == 26;
    case 'P' => assert Key(".--.") == 52;
    case 'Q' => assert Key("--.-") == 71;
    case _ =>
  }

  lemma LettersRReadBack(c: char)
    requires 'R' <= c <= 'U'
    ensures AtKey(Key(Table(c))) == c
  {
    match c
    case 'R' => assert Key(".-.") == 16;
    case 'S' => assert Key("...") == 13;
    case 'T' => assert Key("-") == 2;
    case 'U' => assert Key("..-") == 22;
    case _ =>
  }

  lemma LettersVReadBack(c: char)
    requires 'V' <= c <= 'Z'
    ensures AtKey(Key(Table(c))) == c
  {
    match c
    case 'V' => assert Key("...-") == 67;
    case 'W' => assert Key(".--") == 25;
    case 'X' => assert Key("-..-") == 68;
    case 'Y' => assert Key("-.--") == 77;
    case 'Z' => assert Key("--..") == 44;
    case _ =>
  }

  lemma Figures0ReadBack(c: char)
    requires '0' <= c <= '2'
    ensures AtKey(Key(Table(c))) == c
  {
    match c
    case '0' => assert Key("-----") == 242;
    case '1' => assert Key(".----") == 241;
    case '2' => assert Key("..---") == 238;
    case _ =>
  }

  lemma Figures3ReadBack(c: char)
    requires '3' <= c <= '5'
    ensures AtKey(Key(Table(c))) == c
  {
    match c
    case '3' => assert Key("...--") == 229;
    case '4' => assert Key("....-") == 202;
    case '5' => assert Key(".....") == 121;
    case _ =>
  }

  lemma Figures6ReadBack(c: char)
    requires '6' <= c <= '9'
    ensures AtKey(Key(Table(c))) == c
  {
    match c
    case '6' => assert Key("-....") == 122;
    case '7' => assert Key("--...") == 125;
    case '8' => assert Key("---..") == 134;
    case '9' => assert Key("----.") == 161;
    case _ =>
  }

  lemma StopsReadBack(c: char)
    requires c == '.' || c == ','
    ensures AtKey(Key(Table(c))) == c
  {
    match c
    case '.' => assert Key(".-.-.-") == 637;
    case ',' => assert Key("--..--") == 692;
    case _ =>
  }

  lemma DashesReadBack(c: char)
    requires c == '?' || c == '-'
    ensures AtKey(Key(Table(c))) == c
  {
    match c
    case '?' => assert Key("..--..") == 400;
    case '-' => assert Key("-....-") == 608;
    case _ =>
  }

  lemma ShortMarksReadBack(c: char)
    requires c == '/' || c == '+' || c == '='
    ensures AtKey(Key(Table(c))) == c
  {
    match c
    case '/' => assert Key("-..-.") == 149;
    case '+' => assert Key(".-.-.") == 151;
    case '=' => assert Key("-...-") == 203;
    case _ =>
  }

  lemma OtherMarks(c: char)
    requires Table(c) != "" && !('A' <= c <= 'Z') && !('0' <= c <= '9')
    ensures c == '.' || c == ',' || c == '?' || c == '-' || c == '/' || c == '+' || c == '='
  {}

  lemma LetterReadsBack(c: char)
    requires 'A' <= c <= 'Z'
    ensures AtKey(Key(Table(c))) == c
  {
    hide AtKey, Key, Table;
    if c <= 'G' {
      LettersAReadBack(c);
    } else if c <= 'M' {
      LettersHReadBack(c);
    } else if c <= 'Q' {
      LettersNReadBack(c);
    } else if c <= 'U' {
      LettersRReadBack(c);
    } else {
      LettersVReadBack(c);
    }
  }

  lemma TableReadsBack(c: char)
    requires Table(c) != ""
    ensures AtKey(Key(Table(c))) == c
  {
    hide AtKey, Key, Table;
    if 'A' <= c <= 'Z' {
      LetterReadsBack(c);
    } else if '0' <= c <= '2' {
      Figures0ReadBack(c);
    } else if '3' <= c <= '5' {
      Figures3ReadBack(c);
    } else if '6' <= c <= '9' {
      Figures6ReadBack(c);
    } else {
      OtherMarks(c);
      if c == '.' || c == ',' {
        StopsReadBack(c);
      } else if c == '?' || c == '-' {
        DashesReadBack(c);
      } else {
        ShortMarksReadBack(c);
      }
    }
  }

  /** No two letters have the same code. */
  lemma CodesDiffer(a: char, b: char)
    requires Code(a) == Code(b) != ""
    ensures Upper(a) == Upper(b)
  {
    TableReadsBack(Upper(a));
    TableReadsBack(Upper(b));
  }
}
