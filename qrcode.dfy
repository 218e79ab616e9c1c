/**
 * The device-side sample-id generator of QRcode.h: random digits and letters
 * shuffled together, the CPU serial read from /proc/cpuinfo, the local time
 * stamp, the composed sample id and user message, the libcurl write callback
 * and the rasterisation of a QR symbol into a grey pixel buffer.
 * Random draws, the lines of /proc/cpuinfo, the clock, the HTTP response and
 * the symbol libqrencode returns are inputs.
 */
module QRcode {
  import opened Wrappers
  import opened Text

  function Max0(n: int): nat { if n < 0 then 0 else n }

  // ---- generate_random_numbers ----

  /** uniform_int_distribution<>(0, 9): the largest digit draw. */
  const DIGIT_DRAW_MAX: int := 9

  predicate DigitDraws(draws: seq<int>) {
    forall i :: 0 <= i < |draws| ==> 0 <= draws[i] <= DIGIT_DRAW_MAX
  }

  /** to_string of every draw, in order. */
  function Digits(draws: seq<int>): (s: string)
    requires DigitDraws(draws)
    ensures |s| == |draws|
  {
    if |draws| == 0 then "" else Digits(draws[..|draws| - 1]) + FormatNat(draws[|draws| - 1])
  }

  /** Each draw becomes exactly one digit character, the draw's own digit. */
  lemma {:induction false} DigitsShape(draws: seq<int>)
    requires DigitDraws(draws)
    ensures |Digits(draws)| == |draws| && AllDigits(Digits(draws))
    ensures forall i :: 0 <= i < |draws| ==> Digits(draws)[i] == DigitChar(draws[i])
  {
    if |draws| > 0 {
      DigitsShape(draws[..|draws| - 1]);
    }
  }

  /** generate_random_numbers(count); draws are the distribution's first count outputs. */
  method GenerateNumbers(count: int, draws: seq<int>) returns (numbers: string)
    requires |draws| == Max0(count) && DigitDraws(draws)
    ensures numbers == Digits(draws)
    ensures |numbers| == Max0(count) && AllDigits(numbers)
  {
    numbers := "";
    var i := 0;
    while i < count
      invariant 0 <= i <= |draws|
      invariant numbers == Digits(draws[..i])
    {
      assert draws[..i + 1][..i] == draws[..i];
      numbers := numbers + FormatNat(draws[i]);
      i := i + 1;
    }
    assert draws[..i] == draws;
    DigitsShape(draws);
  }

  // ---- generate_random_letters ----

  const ALPHABET: string := "ABCDEFGHIJKLMNOPQRSTUVWXYZ"

  /** uniform_int_distribution<>(0, 51): the largest letter draw as written. */
  const LETTER_DRAW_MAX: int := 51

  /** The largest index the 26-letter alphabet has. */
  const ALPHABET_LAST: int := 25

  predicate LetterDraws(draws: seq<int>, hi: int) {
    forall i :: 0 <= i < |draws| ==> 0 <= draws[i] <= hi
  }

  /**
   * alphabet[d] on a const std::string: the letter below 26, the terminating
   * NUL at 26, and undefined behaviour (None) beyond.
   */
  function AlphabetAt(d: nat): (r: Option<char>)
    ensures r.Some? <==> d <= |ALPHABET|
  {
    if d < |ALPHABET| then Some(ALPHABET[d])
    else if d == |ALPHABET| then Some(0 as char)
    else None
  }

  /** The letters the draws select; None once any draw is out of bounds. */
  function Letters(draws: seq<int>): (r: Option<string>)
    requires LetterDraws(draws, LETTER_DRAW_MAX)
    ensures r.Some? ==> |r.value| == |draws|
  {
    if |draws| == 0 then Some("")
    else
      var init := Letters(draws[..|draws| - 1]);
      var c := AlphabetAt(draws[|draws| - 1]);
      if init.Some? && c.Some? then Some(init.value + [c.value]) else None
  }

  /** generate_random_letters(count); draws are the distribution's first count outputs. */
  method GenerateLetters(count: int, draws: seq<int>) returns (letters: Option<string>)
    requires |draws| == Max0(count) && LetterDraws(draws, LETTER_DRAW_MAX)
    ensures letters == Letters(draws)
  {
    letters := Some("");
    var i := 0;
    while i < count
      invariant 0 <= i <= |draws|
      invariant letters == Letters(draws[..i])
    {
      assert draws[..i + 1][..i] == draws[..i];
      var c := AlphabetAt(draws[i]);
      if letters.Some? && c.Some? {
        letters := Some(letters.value + [c.value]);
      } else {
        letters := None;
      }
      i := i + 1;
    }
    assert draws[..i] == draws;
  }

  /** Draws 26 and 27 are in the distribution's range, but neither selects a letter. */
  lemma LetterDrawsEscapeAlphabet()
    ensures 26 <= LETTER_DRAW_MAX && 27 <= LETTER_DRAW_MAX
    ensures Letters([26]) == Some([0 as char])
    ensures Letters([27]) == None
  {
    assert [26][..0] == [] && [27][..0] == [];
    assert Letters([]) == Some("");
    assert AlphabetAt(26) == Some(0 as char) && AlphabetAt(27) == None;
    assert "" + [0 as char] == [0 as char];
  }

  /** With draws limited to 0..25, every draw selects one upper-case letter. */
  lemma {:induction false} LettersInAlphabet(draws: seq<int>)
    requires LetterDraws(draws, ALPHABET_LAST)
    ensures Letters(draws).Some?
    ensures |Letters(draws).value| == |draws|
    ensures forall i :: 0 <= i < |draws| ==>
      Letters(draws).value[i] == ALPHABET[draws[i]] && 'A' <= Letters(draws).value[i] <= 'Z'
  {
    if |draws| > 0 {
      LettersInAlphabet(draws[..|draws| - 1]);
    }
  }

  // ---- combine_num_letters ----

  function Swap(s: seq<char>, i: int, j: int): (r: seq<char>)
    requires 0 <= i < |s| && 0 <= j < |s|
    ensures |r| == |s|
  {
    s[i := s[j]][j := s[i]]
  }

  /**
   * The swap partners std::shuffle picks: element i (from 1 up) is swapped
   * with element picks[i - 1], which lies in 0..i.
   */
  predicate ValidPicks(n: int, picks: seq<int>) {
    |picks| == (if n <= 1 then 0 else n - 1) &&
    forall k :: 0 <= k < |picks| ==> 0 <= picks[k] <= k + 1
  }

  /** s after the first k swaps of the shuffle. */
  function Shuffled(s: seq<char>, picks: seq<int>, k: nat): (r: seq<char>)
    requires ValidPicks(|s|, picks) && k <= |picks|
    ensures |r| == |s|
  {
    if k == 0 then s else Swap(Shuffled(s, picks, k - 1), k, picks[k - 1])
  }

  /** A swap keeps the multiset of characters, and so keeps whatever multiset it was equal to. */
  lemma SwapPermutes(s: seq<char>, i: int, j: int, m: multiset<char>)
    requires 0 <= i < |s| && 0 <= j < |s| && multiset(s) == m
    ensures multiset(Swap(s, i, j)) == m
  {
    var t := s[i := s[j]];
    assert multiset(t) == multiset(s) - multiset{s[i]} + multiset{s[j]};
    assert multiset(t[j := s[i]]) == multiset(t) - multiset{t[j]} + multiset{s[i]};
  }

  /** Shuffling only rearranges: the multiset of characters is kept. */
  lemma {:induction false} ShuffledPermutes(s: seq<char>, picks: seq<int>, k: nat)
    requires ValidPicks(|s|, picks) && k <= |picks|
    ensures multiset(Shuffled(s, picks, k)) == multiset(s)
  {
    if k > 0 {
      ShuffledPermutes(s, picks, k - 1);
      ShuffledNext(s, picks, k);
      SwapPermutes(Shuffled(s, picks, k - 1), k, picks[k - 1], multiset(s));
    }
  }

  /** std::shuffle over the vector of characters, in place. */
  method Shuffle(a: array<char>, picks: seq<int>)
    requires ValidPicks(a.Length, picks)
    modifies a
    ensures a[..] == Shuffled(old(a[..]), picks, |picks|)
  {
    ghost var s0 := a[..];
    var i := 1;
    while i < a.Length
      invariant 1 <= i && i - 1 <= |picks|
      invariant a[..] == Shuffled(s0, picks, i - 1)
    {
      var j := picks[i - 1];
      SwapAt(a, i, j);
      ShuffledNext(s0, picks, i);
      i := i + 1;
    }
    ghost var k := i - 1;
    assert k == |picks|;
    assert a[..] == Shuffled(s0, picks, k);
  }

  /** One step of the shuffle on the array: elements i and j change places. */
  method SwapAt(a: array<char>, i: int, j: int)
    requires 0 <= i < a.Length && 0 <= j < a.Length
    modifies a
    ensures a[..] == Swap(old(a[..]), i, j)
  {
    var t := a[i];
    a[i] := a[j];
    a[j] := t;
  }

  /** The k-th shuffle state is the swap of the one before it. */
  lemma ShuffledNext(s: seq<char>, picks: seq<int>, k: nat)
    requires ValidPicks(|s|, picks) && 0 < k <= |picks|
    ensures Shuffled(s, picks, k) == Swap(Shuffled(s, picks, k - 1), k, picks[k - 1])
  {
  }

  /**
   * combine_num_letters: the digits and letters, shuffled together. The
   * letter draws range over 0..51 as the distribution does; None stands for
   * the undefined behaviour of a draw above 26. Draws within the alphabet
   * always give a result.
   */
  method CombineNumLetters(numCount: int, letterCount: int, numDraws: seq<int>, letterDraws: seq<int>, picks: seq<int>)
    returns (mixed: Option<string>)
    requires |numDraws| == Max0(numCount) && DigitDraws(numDraws)
    requires |letterDraws| == Max0(letterCount) && LetterDraws(letterDraws, LETTER_DRAW_MAX)
    requires ValidPicks(Max0(numCount) + Max0(letterCount), picks)
    ensures mixed.Some? <==> Letters(letterDraws).Some?
    ensures LetterDraws(letterDraws, ALPHABET_LAST) ==> mixed.Some?
    ensures mixed.Some? ==>
      |mixed.value| == Max0(numCount) + Max0(letterCount) &&
      mixed.value == Shuffled(Digits(numDraws) + Letters(letterDraws).value, picks, |picks|) &&
      multiset(mixed.value) == multiset(Digits(numDraws) + Letters(letterDraws).value)
  {
    var numbers := GenerateNumbers(numCount, numDraws);
    var letters := GenerateLetters(letterCount, letterDraws);
    if LetterDraws(letterDraws, ALPHABET_LAST) {
      LettersInAlphabet(letterDraws);
    }
    if letters.None? {
      return None;
    }
    var combined := numbers + letters.value;
    var chars := new char[|combined|](i requires 0 <= i < |combined| => combined[i]);
    assert chars[..] == combined;
    Shuffle(chars, picks);
    mixed := Some(chars[..]);
    ShuffledPermutes(combined, picks, |picks|);
  }

  // ---- get_device_serial ----

  const DEFAULT_SERIAL: string := "000000000"

  /**
   * One line of /proc/cpuinfo: a line where "Serial" is found at position 0
   * and that holds a ':' yields the text after the first ':' with every
   * whitespace character removed.
   */
  function SerialLine(line: string): (r: Option<string>)
    ensures r.Some? <==> StartsWith(line, "Serial") && ':' in line
    ensures r.Some? ==> forall i :: 0 <= i < |r.value| ==> !IsSpace(r.value[i])
  {
    FindSpec(line, ':');
    if StartsWith(line, "Serial") then
      var pos := Find(line, ':');
      if pos >= 0 then Some(RemoveSpaces(line[pos + 1..])) else None
    else None
  }

  /** The serial the first matching line gives, or the default. */
  function SerialOf(lines: seq<string>): (r: string)
    ensures r == DEFAULT_SERIAL || exists i :: 0 <= i < |lines| && SerialLine(lines[i]) == Some(r)
  {
    if |lines| == 0 then DEFAULT_SERIAL
    else match SerialLine(lines[0])
      case Some(s) => s
      case None =>
        assert forall i :: 0 <= i < |lines| - 1 ==> lines[1..][i] == lines[i + 1];
        SerialOf(lines[1..])
  }

  /** The first line that yields a serial decides it. */
  lemma {:induction false} SerialOfFirst(lines: seq<string>, i: nat)
    requires i < |lines| && SerialLine(lines[i]).Some?
    requires forall j :: 0 <= j < i ==> SerialLine(lines[j]).None?
    ensures SerialOf(lines) == SerialLine(lines[i]).value
  {
    if i > 0 {
      SerialOfFirst(lines[1..], i - 1);
    }
  }

  /** With no matching line the serial is the default. */
  lemma {:induction false} SerialOfNone(lines: seq<string>)
    requires forall j :: 0 <= j < |lines| ==> SerialLine(lines[j]).None?
    ensures SerialOf(lines) == DEFAULT_SERIAL
  {
    if |lines| > 0 {
      SerialOfNone(lines[1..]);
    }
  }

  /** Whatever the file holds, the serial has no whitespace. */
  lemma {:induction false} SerialOfClean(lines: seq<string>)
    ensures forall i :: 0 <= i < |SerialOf(lines)| ==> !IsSpace(SerialOf(lines)[i])
  {
    if |lines| > 0 && SerialLine(lines[0]).None? {
      SerialOfClean(lines[1..]);
    }
  }

  /** get_device_serial; isOpen says whether /proc/cpuinfo could be opened. */
  method DeviceSerial(isOpen: bool, lines: seq<string>) returns (serial: string)
    ensures serial == if isOpen then SerialOf(lines) else DEFAULT_SERIAL
  {
    if !isOpen {
      return DEFAULT_SERIAL;
    }
    var i := 0;
    while i < |lines|
      invariant 0 <= i <= |lines|
      invariant SerialOf(lines) == SerialOf(lines[i..])
    {
      var found := SerialLine(lines[i]);
      if found.Some? {
        return found.value;
      }
      assert lines[i..][1..] == lines[i + 1..];
      i := i + 1;
    }
    return DEFAULT_SERIAL;
  }

  // ---- get_current_time ----

  /** The fields of struct tm that are printed: years since 1900, months from 0. */
  datatype Tm = Tm(year: nat, mon: nat, mday: nat, hour: nat, min: nat, sec: nat)

  /** Each argument printed with its %04d / %02d directive, year first. */
  function TimeFields(t: Tm): seq<string>
  {
    [PadDecimal(1900 + t.year, 4), PadDecimal(1 + t.mon, 2), PadDecimal(t.mday, 2),
     PadDecimal(t.hour, 2), PadDecimal(t.min, 2), PadDecimal(t.sec, 2)]
  }

  /** The values the fields stand for. */
  function TimeValues(t: Tm): seq<nat>
  {
    [1900 + t.year, 1 + t.mon, t.mday, t.hour, t.min, t.sec]
  }

  /** The format as written, "%04d-%02d-%02d-%02d-%02d": the sixth argument, the seconds, is never printed. */
  function CurrentTimeAsWritten(t: Tm): (r: string)
    ensures Split(r, '-') == TimeFields(t)[..5]
  {
    TimeFieldsDashFree(t);
    SplitJoin(TimeFields(t)[..5], '-');
    Join(TimeFields(t)[..5], '-')
  }

  /** The format the comment above get_current_time promises, YYYY-MM-DD-HH-MM-SS. */
  function CurrentTime(t: Tm): (r: string)
    ensures Split(r, '-') == TimeFields(t)
  {
    TimeFieldsDashFree(t);
    SplitJoin(TimeFields(t), '-');
    Join(TimeFields(t), '-')
  }

  lemma TimeFieldsDashFree(t: Tm)
    ensures forall i :: 0 <= i < 6 ==> '-' !in TimeFields(t)[i] && AllDigits(TimeFields(t)[i])
  {
  }

  /** Two instants one second apart get the same stamp as written. */
  lemma CurrentTimeAsWrittenDropsSeconds()
    ensures CurrentTimeAsWritten(Tm(126, 0, 1, 12, 0, 0)) == CurrentTimeAsWritten(Tm(126, 0, 1, 12, 0, 1))
    ensures CurrentTime(Tm(126, 0, 1, 12, 0, 0)) != CurrentTime(Tm(126, 0, 1, 12, 0, 1))
  {
    var t0, t1 := Tm(126, 0, 1, 12, 0, 0), Tm(126, 0, 1, 12, 0, 1);
    assert TimeFields(t0)[..5] == TimeFields(t1)[..5];
    CurrentTimeFields(t0);
    CurrentTimeFields(t1);
    PadDecimalValue(0, 2);
    PadDecimalValue(1, 2);
  }

  /** The intended stamp splits into six numerals that read back as the six values. */
  lemma CurrentTimeFields(t: Tm)
    ensures Split(CurrentTime(t), '-') == TimeFields(t)
    ensures forall i :: 0 <= i < 6 ==> AllDigits(TimeFields(t)[i]) && DigitsValue(TimeFields(t)[i]) == TimeValues(t)[i]
  {
    TimeFieldValues(t);
  }

  lemma TimeFieldValues(t: Tm)
    ensures forall i :: 0 <= i < 6 ==> AllDigits(TimeFields(t)[i]) && DigitsValue(TimeFields(t)[i]) == TimeValues(t)[i]
  {
    var f, v := TimeFields(t), TimeValues(t);
    PadDecimalValue(v[0], 4);
    PadDecimalValue(v[1], 2);
    PadDecimalValue(v[2], 2);
    PadDecimalValue(v[3], 2);
    PadDecimalValue(v[4], 2);
    PadDecimalValue(v[5], 2);
  }

  // ---- save_qr_png: rasterisation ----

  /** Quiet-zone width in modules. */
  const BORDER: int := 4

  /** Pixels per module side. */
  const SCALE: int := 10

  /** The part of libqrencode's QRcode that is read: width and width*width module bytes. */
  datatype QrSymbol = QrSymbol(width: int, data: seq<bv8>)

  predicate WellFormed(q: QrSymbol) { q.width >= 0 && |q.data| == q.width * q.width }

  lemma MulLe(a: int, b: int, n: int)
    requires a <= b && 0 <= n
    ensures a * n <= b * n
  {
    assert b * n - a * n == (b - a) * n;
  }

  /** Row r, column c of a row-major square of side n sits at r * n + c, and that index gives them back. */
  lemma RowMajor(r: int, c: int, n: int)
    requires 0 <= r < n && 0 <= c < n
    ensures 0 <= r * n + c < n * n
    ensures (r * n + c) / n == r && (r * n + c) % n == c
  {
    MulLe(r + 1, n, n);
    var p := r * n + c;
    var k := p / n - r;
    assert k * n == c - p % n by {
      assert p == (p / n) * n + p % n;
      assert k * n == (p / n) * n - r * n;
    }
    if k >= 1 {
      MulLe(1, k, n);
    } else if k <= -1 {
      MulLe(k, -1, n);
    }
  }

  /** Every index of a square of side n is the index of its own row and column. */
  lemma Unrow(p: int, n: int)
    requires n > 0 && 0 <= p < n * n
    ensures 0 <= p / n < n && 0 <= p % n < n && p == (p / n) * n + p % n
  {
    if p / n >= n {
      MulLe(n, p / n, n);
    }
  }

  /** Bit 0 of module (y, x): the module is dark. */
  predicate Dark(q: QrSymbol, y: int, x: int)
    requires WellFormed(q) && 0 <= y < q.width && 0 <= x < q.width
  {
    RowMajor(y, x, q.width);
    q.data[y * q.width + x] & 1 == 1
  }

  function ImgSize(q: QrSymbol): int { (q.width + 2 * BORDER) * SCALE }

  /** The grey value the rasteriser promises at row r, column c: black on a dark module, white elsewhere. */
  function Pixel(q: QrSymbol, r: int, c: int): bv8
    requires WellFormed(q)
  {
    var y := r / SCALE - BORDER;
    var x := c / SCALE - BORDER;
    if 0 <= y < q.width && 0 <= x < q.width && Dark(q, y, x) then 0 else 255
  }

  /** Pixel (r, c) lies in the block of module (y, x). */
  predicate InBlock(r: int, c: int, y: int, x: int) {
    (y + BORDER) * SCALE <= r < (y + BORDER + 1) * SCALE &&
    (x + BORDER) * SCALE <= c < (x + BORDER + 1) * SCALE
  }

  /** The image once the module loops have reached module (y0, x0): only earlier dark modules are painted. */
  function Painted(q: QrSymbol, r: int, c: int, y0: int, x0: int): bv8
    requires WellFormed(q)
  {
    var y := r / SCALE - BORDER;
    var x := c / SCALE - BORDER;
    if 0 <= y < q.width && 0 <= x < q.width && (y < y0 || (y == y0 && x < x0)) && Dark(q, y, x) then 0 else 255
  }

  /** Every index of the image agrees with Painted at stage (y0, x0). */
  ghost predicate PaintedUpTo(image: array<bv8>, n: int, q: QrSymbol, y0: int, x0: int)
    requires WellFormed(q)
    reads image
  {
    n > 0 && image.Length == n * n &&
    forall p :: 0 <= p < image.Length ==> image[p] == Painted(q, p / n, p % n, y0, x0)
  }

  lemma BlockOfModule(r: int, c: int, y: int, x: int)
    requires 0 <= y && 0 <= x
    ensures InBlock(r, c, y, x) <==> r / SCALE - BORDER == y && c / SCALE - BORDER == x
  {
  }

  /** Moving past module (y, x) paints its block if it is dark and nothing else. */
  lemma PaintedStep(q: QrSymbol, y: int, x: int)
    requires WellFormed(q) && 0 <= y < q.width && 0 <= x < q.width
    ensures forall r, c ::
      Painted(q, r, c, y, x + 1) == if InBlock(r, c, y, x) && Dark(q, y, x) then 0 else Painted(q, r, c, y, x)
  {
    forall r, c
      ensures Painted(q, r, c, y, x + 1) == if InBlock(r, c, y, x) && Dark(q, y, x) then 0 else Painted(q, r, c, y, x)
    {
      BlockOfModule(r, c, y, x);
    }
  }

  /** The two inner loops over one module: its SCALE x SCALE block turns black. */
  method PaintModule(image: array<bv8>, n: int, y: int, x: int)
    requires n > 0 && image.Length == n * n && 0 <= y && 0 <= x
    modifies image
    ensures forall p :: 0 <= p < image.Length ==>
      image[p] == if InBlock(p / n, p % n, y, x) then 0 else old(image[p])
  {
    var dy := 0;
    while dy < SCALE
      invariant 0 <= dy <= SCALE
      invariant forall p :: 0 <= p < image.Length ==>
        image[p] == if InBlock(p / n, p % n, y, x) && p / n < (y + BORDER) * SCALE + dy then 0 else old(image[p])
    {
      PaintLine(image, n, y, x, dy);
      dy := dy + 1;
    }
  }

  /** s is s0 with pixel row dy of module (y, x)'s block painted up to column offset dx. */
  ghost predicate LineUpTo(s: seq<bv8>, s0: seq<bv8>, n: int, y: int, x: int, dy: int, dx: int)
    requires n > 0
  {
    |s| == |s0| &&
    forall p :: 0 <= p < |s| ==>
      s[p] == if InBlock(p / n, p % n, y, x) && p / n == (y + BORDER) * SCALE + dy && p % n < (x + BORDER) * SCALE + dx
              then 0 else s0[p]
  }

  /** One pass of the innermost loop body: pixel (px, py) turns black when it is inside the image. */
  lemma LineStep(s: seq<bv8>, s0: seq<bv8>, n: int, y: int, x: int, dy: int, dx: int)
    requires n > 0 && |s| == n * n && 0 <= y && 0 <= x && 0 <= dy < SCALE && 0 <= dx < SCALE
    requires LineUpTo(s, s0, n, y, x, dy, dx)
    ensures var px, py := (y + BORDER) * SCALE + dy, (x + BORDER) * SCALE + dx;
      if px < n && py < n then 0 <= px * n + py < |s| && LineUpTo(s[px * n + py := 0], s0, n, y, x, dy, dx + 1)
      else LineUpTo(s, s0, n, y, x, dy, dx + 1)
  {
    var px, py := (y + BORDER) * SCALE + dy, (x + BORDER) * SCALE + dx;
    if px < n && py < n {
      RowMajor(px, py, n);
    }
    var t := if px < n && py < n then s[px * n + py := 0] else s;
    forall p | 0 <= p < |s|
      ensures t[p] == if InBlock(p / n, p % n, y, x) && p / n == px && p % n < py + 1 then 0 else s0[p]
    {
      Unrow(p, n);
      if p / n == px && p % n == py {
        assert p == px * n + py;
      }
    }
  }

  /** The innermost loop: pixel row dy of the block of module (y, x). */
  method PaintLine(image: array<bv8>, n: int, y: int, x: int, dy: int)
    requires n > 0 && image.Length == n * n && 0 <= y && 0 <= x && 0 <= dy < SCALE
    modifies image
    ensures forall p :: 0 <= p < image.Length ==>
      image[p] == if InBlock(p / n, p % n, y, x) && p / n == (y + BORDER) * SCALE + dy then 0 else old(image[p])
  {
    var dx := 0;
    while dx < SCALE
      invariant 0 <= dx <= SCALE
      invariant LineUpTo(image[..], old(image[..]), n, y, x, dy, dx)
    {
      var px := (y + BORDER) * SCALE + dy;
      var py := (x + BORDER) * SCALE + dx;
      LineStep(image[..], old(image[..]), n, y, x, dy, dx);
      if px < n && py < n {
        image[px * n + py] := 0;
      }
      dx := dx + 1;
    }
    assert forall p :: 0 <= p < image.Length ==> image[p] == image[..][p] && old(image[p]) == old(image[..])[p];
  }

  /** The rasterising part of save_qr_png: a white image with every dark module's block painted black. */
  method Rasterise(q: QrSymbol) returns (image: array<bv8>, imgSize: int)
    requires WellFormed(q)
    ensures imgSize == ImgSize(q) && image.Length == imgSize * imgSize
    ensures forall p :: 0 <= p < image.Length ==> image[p] == Pixel(q, p / imgSize, p % imgSize)
  {
    var size := q.width;
    imgSize := (size + 2 * BORDER) * SCALE;
    image := new bv8[imgSize * imgSize](_ => 255);
    var y := 0;
    while y < size
      invariant 0 <= y <= size
      invariant PaintedUpTo(image, imgSize, q, y, 0)
    {
      var x := 0;
      while x < size
        invariant 0 <= x <= size
        invariant PaintedUpTo(image, imgSize, q, y, x)
      {
        RowMajor(y, x, size);
        if q.data[y * size + x] & 1 == 1 {
          PaintModule(image, imgSize, y, x);
        }
        PaintedStep(q, y, x);
        x := x + 1;
      }
      y := y + 1;
    }
  }

  /** Row r, column c of the image is the row-major index r * imgSize + c. */
  lemma RasterAt(q: QrSymbol, image: seq<bv8>, r: int, c: int)
    requires WellFormed(q) && |image| == ImgSize(q) * ImgSize(q)
    requires forall p :: 0 <= p < |image| ==> image[p] == Pixel(q, p / ImgSize(q), p % ImgSize(q))
    requires 0 <= r < ImgSize(q) && 0 <= c < ImgSize(q)
    ensures 0 <= r * ImgSize(q) + c < |image| && image[r * ImgSize(q) + c] == Pixel(q, r, c)
  {
    RowMajor(r, c, ImgSize(q));
  }

  /** The quiet zone: every pixel within BORDER modules of an edge is white. */
  lemma PixelQuietZone(q: QrSymbol, r: int, c: int)
    requires WellFormed(q) && 0 <= r < ImgSize(q) && 0 <= c < ImgSize(q)
    requires r < BORDER * SCALE || c < BORDER * SCALE ||
             r >= ImgSize(q) - BORDER * SCALE || c >= ImgSize(q) - BORDER * SCALE
    ensures Pixel(q, r, c) == 255
  {
  }

  /** Every pixel of a module's block shows that module: the image gives the matrix back. */
  lemma PixelOfModule(q: QrSymbol, y: int, x: int, dy: int, dx: int)
    requires WellFormed(q) && 0 <= y < q.width && 0 <= x < q.width && 0 <= dy < SCALE && 0 <= dx < SCALE
    ensures 0 <= (y + BORDER) * SCALE + dy < ImgSize(q) && 0 <= (x + BORDER) * SCALE + dx < ImgSize(q)
    ensures Pixel(q, (y + BORDER) * SCALE + dy, (x + BORDER) * SCALE + dx) == if Dark(q, y, x) then 0 else 255
  {
    BlockOfModule((y + BORDER) * SCALE + dy, (x + BORDER) * SCALE + dx, y, x);
  }

  /**
   * save_qr_png: false for a null symbol; otherwise the image is built, and
   * the result is false when fopen fails (fileOk) or when libpng fails
   * (pngOk: creating the write or info struct, or an error during writing).
   */
  method SaveQrPng(qrcode: Option<QrSymbol>, fileOk: bool, pngOk: bool) returns (ok: bool)
    requires qrcode.Some? ==> WellFormed(qrcode.value)
    ensures ok <==> qrcode.Some? && fileOk && pngOk
  {
    if qrcode.None? {
      return false;
    }
    var image, imgSize := Rasterise(qrcode.value);
    if !fileOk {
      return false;
    }
    ok := pngOk;
  }

  // ---- WriteCallback ----

  /** The std::string curl's write callback appends to. */
  class ReadBuffer {
    var text: string

    constructor()
      ensures text == ""
    {
      text := "";
    }

    /** WriteCallback: appends size*nmemb bytes of contents and reports them all taken. */
    method WriteCallback(contents: seq<char>, size: nat, nmemb: nat) returns (taken: nat)
      requires size * nmemb <= |contents|
      modifies this
      ensures text == old(text) + contents[..size * nmemb]
      ensures taken == size * nmemb
    {
      text := text + contents[..size * nmemb];
      taken := size * nmemb;
    }
  }

  // ---- Generate_and_send_user_message ----

  /** sample_id: serial, time stamp and mixed characters joined by '-'. */
  function SampleId(serial: string, time: string, mixed: string): (r: string)
    ensures |r| == |serial| + |time| + |mixed| + 2
    ensures r[..|serial|] == serial && r[|serial|] == '-' && r[|r| - |mixed|..] == mixed
  {
    serial + "-" + time + "-" + mixed
  }

  /** user_message: the server's reply, '-', then the sample id. */
  function UserMessage(response: string, sampleId: string): (r: string)
    ensures |r| == |response| + |sampleId| + 1
    ensures r[..|response|] == response && r[|response|] == '-' && r[|response| + 1..] == sampleId
  {
    response + "-" + sampleId
  }

  /**
   * The query string Generate_and_send_user_message sends to
   * /collect/get_user as written: the escaped sample id under the key "data".
   */
  function GetUserQueryAsWritten(sampleId: string): (r: map<string, string>)
    ensures "sample_id" !in r && r.Keys == {"data"} && r["data"] == sampleId
  {
    map["data" := sampleId]
  }

  /** The query the server's get_user handler reads: the sample id under the key "sample_id". */
  function GetUserQuery(sampleId: string): (r: map<string, string>)
    ensures r.Keys == {"sample_id"} && r["sample_id"] == sampleId
  {
    map["sample_id" := sampleId]
  }

  /** The number and letter counts Generate_and_send_user_message asks for. */
  const MIXED_DIGITS: int := 3
  const MIXED_LETTERS: int := 3

  /** What one Generate_and_send_user_message call produces. */
  datatype MessageRun = MessageRun(sampleId: string, query: map<string, string>, userMessage: string, saved: bool)

  /**
   * Generate_and_send_user_message. With asWritten the time stamp has five
   * fields and the get_user query uses the key "data", as the code is
   * written; without it, the six-field stamp and the key "sample_id" the
   * server reads. The letter draws range over 0..51; None stands for the
   * undefined behaviour of a draw above 26. The response is what curl handed
   * to WriteCallback (empty when the request failed); qrcode is what
   * QRcode_encodeString returned, and fileOk and pngOk the outcomes of fopen
   * and libpng inside save_qr_png.
   */
  method GenerateUserMessage(asWritten: bool, t: Tm, cpuinfoOpen: bool, cpuinfo: seq<string>,
                             numDraws: seq<int>, letterDraws: seq<int>, picks: seq<int>,
                             response: string, qrcode: Option<QrSymbol>, fileOk: bool, pngOk: bool)
    returns (run: Option<MessageRun>)
    requires |numDraws| == MIXED_DIGITS && DigitDraws(numDraws)
    requires |letterDraws| == MIXED_LETTERS && LetterDraws(letterDraws, LETTER_DRAW_MAX)
    requires ValidPicks(MIXED_DIGITS + MIXED_LETTERS, picks)
    requires qrcode.Some? ==> WellFormed(qrcode.value)
    ensures run.Some? <==> Letters(letterDraws).Some?
    ensures LetterDraws(letterDraws, ALPHABET_LAST) ==> run.Some?
    ensures run.Some? ==>
      var stamp := if asWritten then CurrentTimeAsWritten(t) else CurrentTime(t);
      var id := SampleId(if cpuinfoOpen then SerialOf(cpuinfo) else DEFAULT_SERIAL, stamp,
                         Shuffled(Digits(numDraws) + Letters(letterDraws).value, picks, |picks|));
      run.value.sampleId == id &&
      run.value.query == (if asWritten then GetUserQueryAsWritten(id) else GetUserQuery(id)) &&
      run.value.userMessage == UserMessage(response, id) &&
      (run.value.saved <==> qrcode.Some? && fileOk && pngOk)
  {
    var currentTime := if asWritten then CurrentTimeAsWritten(t) else CurrentTime(t);
    var serial := DeviceSerial(cpuinfoOpen, cpuinfo);
    var mixed := CombineNumLetters(MIXED_DIGITS, MIXED_LETTERS, numDraws, letterDraws, picks);
    if mixed.None? {
      return None;
    }
    var sampleId := SampleId(serial, currentTime, mixed.value);
    var query := if asWritten then GetUserQueryAsWritten(sampleId) else GetUserQuery(sampleId);
    var saved := SaveQrPng(qrcode, fileOk, pngOk);
    run := Some(MessageRun(sampleId, query, UserMessage(response, sampleId), saved));
  }
}
