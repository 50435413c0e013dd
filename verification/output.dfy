/** The text file `main_loop` writes after every frame (asciithree.py:332-336, and the
    same loop at main.py:479-486): each row of the screen becomes one line in which every
    cell appears twice, side by side, so that the glyphs look roughly square in a
    terminal.  The pairs come from `zip(row, row)`. */
module Output {
  import opened Sequences
  import opened Text

  /** A row with every cell written twice: `"".join(e for tup in zip(row, row) for e in tup)`. */
  function Doubled(row: seq<char>): (r: string)
    ensures |r| == 2 * |row|
    ensures forall i :: 0 <= i < |row| ==> r[2 * i] == row[i] && r[2 * i + 1] == row[i]
  {
    if |row| == 0 then "" else [row[0], row[0]] + Doubled(row[1..])
  }

  /** The whole file: one doubled row per line, each line ended by `"\n"`. */
  function Serialise(screen: seq<seq<char>>): string {
    if |screen| == 0 then "" else Doubled(screen[0]) + "\n" + Serialise(screen[1..])
  }

  /** Every other character, starting with the first: undoes `Doubled`. */
  function Undoubled(line: string): string {
    if |line| < 2 then line else [line[0]] + Undoubled(line[2..])
  }

  /** Reads a written file back into rows: the lines before the final `"\n"`, halved. */
  function Deserialise(text: string): seq<seq<char>> {
    var lines := SplitWhere(text, IsChar('\n'));
    seq(|lines| - 1, i requires 0 <= i < |lines| - 1 => Undoubled(lines[i]))
  }

  /** A screen none of whose cells is a line break. */
  predicate SingleLineRows(screen: seq<seq<char>>) {
    forall y, x :: 0 <= y < |screen| && 0 <= x < |screen[y]| ==> screen[y][x] != '\n'
  }

  /** Concatenating the pairs of `zip(row, row)` is `Doubled(row)`. */
  function Flatten(pairs: seq<(char, char)>): string {
    if |pairs| == 0 then "" else [pairs[0].0, pairs[0].1] + Flatten(pairs[1..])
  }

  lemma {:induction false} FlattenAppend(pairs: seq<(char, char)>, p: (char, char))
    ensures Flatten(pairs + [p]) == Flatten(pairs) + [p.0, p.1]
  {
    if |pairs| > 0 {
      FlattenAppend(pairs[1..], p);
      assert (pairs + [p])[1..] == pairs[1..] + [p];
    }
  }

  lemma {:induction false} FlattenZipSelf(row: seq<char>)
    ensures Flatten(Zip(row, row)) == Doubled(row)
  {
    if |row| > 0 {
      FlattenZipSelf(row[1..]);
      assert Zip(row, row)[1..] == Zip(row[1..], row[1..]);
    }
  }

  lemma {:induction false} SerialiseAppend(screen: seq<seq<char>>, row: seq<char>)
    ensures Serialise(screen + [row]) == Serialise(screen) + Doubled(row) + "\n"
  {
    if |screen| == 0 {
      assert [row][1..] == [];
    } else {
      SerialiseAppend(screen[1..], row);
      var head := Doubled(screen[0]) + "\n";
      assert (screen + [row])[0] == screen[0] && (screen + [row])[1..] == screen[1..] + [row];
      assert Serialise(screen + [row]) == head + Serialise(screen[1..] + [row]);
      assert Serialise(screen) == head + Serialise(screen[1..]);
      assert head + (Serialise(screen[1..]) + Doubled(row) + "\n")
          == (head + Serialise(screen[1..])) + Doubled(row) + "\n";
    }
  }

  /** The loop of `main_loop`, building the text row by row and pair by pair. */
  method WriteScreen(screen: seq<seq<char>>) returns (text: string)
    ensures text == Serialise(screen)
  {
    text := "";
    for y := 0 to |screen|
      invariant text == Serialise(screen[..y])
    {
      var row := screen[y];
      var pairs := Zip(row, row);
      var line := "";
      for x := 0 to |pairs|
        invariant line == Flatten(pairs[..x])
      {
        FlattenAppend(pairs[..x], pairs[x]);
        assert pairs[..x + 1] == pairs[..x] + [pairs[x]];
        line := line + [pairs[x].0, pairs[x].1];
      }
      assert pairs[..|pairs|] == pairs;
      FlattenZipSelf(row);
      SerialiseAppend(screen[..y], row);
      assert screen[..y + 1] == screen[..y] + [row];
      text := text + line;
      text := text + "\n";
    }
    assert screen[..|screen|] == screen;
  }

  /** The file has one line per row, each twice as long as the row. */
  lemma {:induction false} SerialiseLength(screen: seq<seq<char>>)
    ensures |Serialise(screen)| == |screen| + 2 * SumLengths(screen)
  {
    if |screen| > 0 {
      SerialiseLength(screen[1..]);
    }
  }

  function SumLengths(screen: seq<seq<char>>): nat {
    if |screen| == 0 then 0 else |screen[0]| + SumLengths(screen[1..])
  }

  /** Halving a doubled row gives the row back. */
  lemma {:induction false} UndoubleDoubled(row: seq<char>)
    ensures Undoubled(Doubled(row)) == row
  {
    if |row| > 0 {
      UndoubleDoubled(row[1..]);
      var d := Doubled(row);
      assert d[2..] == Doubled(row[1..]);
      assert row == [row[0]] + row[1..];
    }
  }

  /** A line free of the separator followed by the separator is one whole piece. */
  lemma {:induction false} SplitAtFirst(a: string, sep: char, b: string)
    requires forall i :: 0 <= i < |a| ==> a[i] != sep
    ensures SplitWhere(a + [sep] + b, IsChar(sep)) == [a] + SplitWhere(b, IsChar(sep))
  {
    var s := a + [sep] + b;
    if |a| == 0 {
      assert s == [sep] + b;
      assert s[1..] == b;
    } else {
      SplitAtFirst(a[1..], sep, b);
      assert s[1..] == a[1..] + [sep] + b;
      assert s[0] == a[0] && !IsChar(sep)(a[0]);
      assert a == [a[0]] + a[1..];
    }
  }

  /** A doubled row contains only the row's own characters. */
  lemma DoubledAvoids(row: seq<char>, c: char)
    requires forall x :: 0 <= x < |row| ==> row[x] != c
    ensures forall i :: 0 <= i < |Doubled(row)| ==> Doubled(row)[i] != c
  {
    var d := Doubled(row);
    forall i | 0 <= i < |d|
      ensures d[i] != c
    {
      assert d[i] == row[i / 2] by {
        if i % 2 == 0 {
          assert d[2 * (i / 2)] == row[i / 2];
        } else {
          assert d[2 * (i / 2) + 1] == row[i / 2];
        }
      }
    }
  }

  /** The lines of a written file, split at `"\n"`: one doubled row each and a last, empty
      piece after the final line break. */
  lemma {:induction false} SplitSerialised(screen: seq<seq<char>>)
    requires SingleLineRows(screen)
    ensures SplitWhere(Serialise(screen), IsChar('\n')) == seq(|screen|, i requires 0 <= i < |screen| => Doubled(screen[i])) + [""]
  {
    if |screen| > 0 {
      assert SingleLineRows(screen[1..]) by {
        forall y, x | 0 <= y < |screen[1..]| && 0 <= x < |screen[1..][y]|
          ensures screen[1..][y][x] != '\n'
        {
          assert screen[1..][y] == screen[y + 1];
        }
      }
      SplitSerialised(screen[1..]);
      DoubledAvoids(screen[0], '\n');
      SplitAtFirst(Doubled(screen[0]), '\n', Serialise(screen[1..]));
    }
  }

  /** Reading the file back gives the screen that was written, provided no cell is a line
      break (the renderer only ever writes `' '` and the six glyphs of the intensity
      table). */
  lemma ReadBack(screen: seq<seq<char>>)
    requires SingleLineRows(screen)
    ensures Deserialise(Serialise(screen)) == screen
  {
    SplitSerialised(screen);
    var lines := SplitWhere(Serialise(screen), IsChar('\n'));
    forall i | 0 <= i < |screen|
      ensures Undoubled(lines[i]) == screen[i]
    {
      UndoubleDoubled(screen[i]);
    }
  }
}
