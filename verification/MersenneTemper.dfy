/**
 The tempering of src/random.c, and that it loses nothing: each of its four lines is a linear
 shear of the word, so it is undone by at most three more rounds of the same line.
 */
module MersenneTemper {

  /** Exclusive or under a name, so that proofs can use its laws and not its 64 bits. */
  function Xor(a: bv64, b: bv64): bv64 { a ^ b }

  lemma {:induction false} Cancel(a: bv64, b: bv64)
    ensures Xor(Xor(a, b), b) == a
  {
  }

  lemma {:induction false} Merge(a: bv64, b: bv64, c: bv64)
    ensures Xor(Xor(a, b), Xor(b, c)) == Xor(a, c)
  {
  }

  lemma {:induction false} Zero(a: bv64)
    ensures Xor(a, 0) == a
  {
  }

  /** The shifted and masked part that each line of the tempering adds. */
  datatype Line = Right29 | Left17 | Left37 | Right43

  function Part29(x: bv64): bv64 { (x >> 29) & 0x5555555555555555 }
  function Part17(x: bv64): bv64 { (x << 17) & 0x71D67FFFEDA60000 }
  function Part37(x: bv64): bv64 { (x << 37) & 0xFFF7EEE000000000 }
  function Part43(x: bv64): bv64 { x >> 43 }

  function Part(line: Line, x: bv64): bv64 {
    match line
    case Right29 => Part29(x)
    case Left17 => Part17(x)
    case Left37 => Part37(x)
    case Right43 => Part43(x)
  }

  function Shear(line: Line, x: bv64): bv64 { Xor(x, Part(line, x)) }

  /** The four lines of genrand64_int64 that make the output from the word `x` of the sequence. */
  function Temper(x: bv64): bv64 {
    Shear(Right43, Shear(Left37, Shear(Left17, Shear(Right29, x))))
  }

  // ----- undoing a line

  function Unshear(line: Line, y: bv64): bv64 {
    Xor(y, Part(line, Xor(y, Part(line, Xor(y, Part(line, y))))))
  }

  lemma {:induction false} Linear29(a: bv64, b: bv64)
    ensures Part29(Xor(a, b)) == Xor(Part29(a), Part29(b))
  {
  }

  lemma {:induction false} Linear17(a: bv64, b: bv64)
    ensures Part17(Xor(a, b)) == Xor(Part17(a), Part17(b))
  {
  }

  lemma {:induction false} Linear37(a: bv64, b: bv64)
    ensures Part37(Xor(a, b)) == Xor(Part37(a), Part37(b))
  {
  }

  lemma {:induction false} Linear43(a: bv64, b: bv64)
    ensures Part43(Xor(a, b)) == Xor(Part43(a), Part43(b))
  {
  }

  lemma {:induction false} Linear(line: Line, a: bv64, b: bv64)
    ensures Part(line, Xor(a, b)) == Xor(Part(line, a), Part(line, b))
  {
    hide Xor, Part29, Part17, Part37, Part43;
    Linear29(a, b);
    Linear17(a, b);
    Linear37(a, b);
    Linear43(a, b);
  }

  lemma {:induction false} Nilpotent(line: Line, x: bv64)
    ensures Part(line, Part(line, Part(line, Part(line, x)))) == 0
  {
    match line {
      case Right29 =>
      case Left17 =>
      case Left37 =>
      case Right43 =>
    }
  }

  lemma {:induction false} UnshearOfShear(line: Line, x: bv64)
    ensures Unshear(line, Shear(line, x)) == x
  {
    var p1 := Part(line, x);
    var p2 := Part(line, p1);
    var p3 := Part(line, p2);
    Nilpotent(line, x);
    hide Xor, Part;
    var y := Xor(x, p1);
    Linear(line, x, p1);
    Merge(x, p1, p2);
    Linear(line, x, p2);
    Merge(x, p1, p3);
    Linear(line, x, p3);
    Zero(p1);
    Cancel(x, p1);
  }

  lemma {:induction false} ShearOfUnshear(line: Line, y: bv64)
    ensures Shear(line, Unshear(line, y)) == y
  {
    var p1 := Part(line, y);
    var p2 := Part(line, p1);
    var p3 := Part(line, p2);
    Nilpotent(line, y);
    hide Xor, Part;
    Linear(line, y, p1);
    Linear(line, y, Xor(p1, p2));
    Linear(line, p1, p2);
    Linear(line, y, Xor(p1, Xor(p2, p3)));
    Linear(line, p1, Xor(p2, p3));
    Linear(line, p2, p3);
    Zero(p3);
    Cancel(y, Xor(p1, Xor(p2, p3)));
  }

  function Untemper(y: bv64): bv64 {
    Unshear(Right29, Unshear(Left17, Unshear(Left37, Unshear(Right43, y))))
  }

  /** Main result: tempering is a bijection on 64-bit words. */
  lemma {:induction false} TemperBijection(x: bv64)
    ensures Untemper(Temper(x)) == x && Temper(Untemper(x)) == x
  {
    hide Shear, Unshear;
    UnshearOfShear(Right29, x);
    UnshearOfShear(Left17, Shear(Right29, x));
    UnshearOfShear(Left37, Shear(Left17, Shear(Right29, x)));
    UnshearOfShear(Right43, Shear(Left37, Shear(Left17, Shear(Right29, x))));
    ShearOfUnshear(Right43, x);
    ShearOfUnshear(Left37, Unshear(Right43, x));
    ShearOfUnshear(Left17, Unshear(Left37, Unshear(Right43, x)));
    ShearOfUnshear(Right29, Unshear(Left17, Unshear(Left37, Unshear(Right43, x))));
  }
}
