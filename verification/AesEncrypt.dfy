/** The encryption routines, with the round keys computed on the way. */
module AesEncrypt {
  import opened AesSpec
  import opened AesWords
  import opened AesTable

  // ---------- The key schedule on the way ----------

  ghost function Columns(words: seq<Word>): (c: seq<Column>)
    ensures |c| == |words| && forall i :: 0 <= i < |c| ==> c[i] == Bytes(words[i])
  {
    seq(|words|, i requires 0 <= i < |words| => Bytes(words[i]))
  }

  method XorOf(a: Word, b: Word) returns (r: Word)
    ensures Bytes(r) == Xor(Bytes(a), Bytes(b))
  {
    BytesXor(a, b);
    r := XorWord(a, b);
  }

  /** The first key addition. */
  method Whiten(state: array<Word>, k0: Word, k1: Word, k2: Word, k3: Word)
    requires state.Length == 4
    modifies state
    ensures StateOf(state) == AddRoundKey(old(StateOf(state)), BlockOf(k0, k1, k2, k3))
  {
    hide Bytes, Xor;
    state[0] := XorOf(state[0], k0);
    state[1] := XorOf(state[1], k1);
    state[2] := XorOf(state[2], k2);
    state[3] := XorOf(state[3], k3);
  }

  /** The word that starts a new group of the key schedule. */
  method Turned(t: Table, k: Word, rcon: bv8, ghost sbox: SBox) returns (temp: Word)
    requires RowsOf(t, sbox)
    ensures Bytes(temp) == Xor(SubWord(sbox, RotWord(Bytes(k))), Column(rcon, 0, 0, 0))
  {
    hide Bytes, RowsOf, SubWord, Xor, RotDown8;
    BytesRotDown8(k);
    temp := SubBytesOf(t, RotDown8(k), sbox);
    BytesOfByte(rcon);
    temp := XorOf(temp, rcon as Word);
  }

  lemma ScheduleRot(sbox: SBox, key: seq<Column>, i: nat, m: nat)
    requires |key| in {4, 6, 8} && m > 0 && i == m * |key|
    ensures i > 0 && W(sbox, key, i) ==
      Xor(W(sbox, key, i - |key|), Xor(SubWord(sbox, RotWord(W(sbox, key, i - 1))), Column(Rcon(m), 0, 0, 0)))
  {
    hide Xor, SubWord, RotWord, Rcon;
    if |key| == 4 {
      assert i % 4 == 0 && i / 4 == m;
    } else if |key| == 6 {
      assert i % 6 == 0 && i / 6 == m;
    } else {
      assert i % 8 == 0 && i / 8 == m;
    }
  }

  lemma SchedulePlain(sbox: SBox, key: seq<Column>, i: nat)
    requires |key| in {4, 6, 8} && i >= |key| && i % |key| != 0 && (|key| == 8 ==> i % 8 != 4)
    ensures W(sbox, key, i) == Xor(W(sbox, key, i - |key|), W(sbox, key, i - 1))
  {
    hide Xor, SubWord, RotWord;
  }

  lemma ScheduleSub(sbox: SBox, key: seq<Column>, i: nat)
    requires |key| == 8 && i >= 8 && i % 8 == 4
    ensures W(sbox, key, i) == Xor(W(sbox, key, i - 8), SubWord(sbox, W(sbox, key, i - 1)))
  {
    hide Xor, SubWord, RotWord;
  }

  lemma RconNext(i: nat)
    requires i > 0
    ensures NextRcon(Rcon(i)) == Rcon(i + 1)
  {
    hide NextRcon, Xtime;
    NextRconIsXtime(Rcon(i));
  }

  // ---------- 128-bit keys ----------

  /** One step of the 128-bit key schedule. */
  method NextKeys128(t: Table, k0: Word, k1: Word, k2: Word, k3: Word, rcon: bv8,
                     ghost sbox: SBox, ghost key: seq<Column>, ghost r: nat)
    returns (k0': Word, k1': Word, k2': Word, k3': Word)
    requires RowsOf(t, sbox) && |key| == 4 && r > 0 && rcon == Rcon(r)
    requires BlockOf(k0, k1, k2, k3) == RoundKey(sbox, key, r - 1)
    ensures BlockOf(k0', k1', k2', k3') == RoundKey(sbox, key, r)
  {
    hide Bytes, RowsOf, Xor, W, SubWord, RotWord, Rcon;
    ScheduleRot(sbox, key, 4 * r, r);
    SchedulePlain(sbox, key, 4 * r + 1);
    SchedulePlain(sbox, key, 4 * r + 2);
    SchedulePlain(sbox, key, 4 * r + 3);
    var temp := Turned(t, k3, rcon, sbox);
    k0' := XorOf(k0, temp);
    k1' := XorOf(k1, k0');
    k2' := XorOf(k2, k1');
    k3' := XorOf(k3, k2');
  }

  lemma FirstKey(sbox: SBox, key: seq<Column>, input: Block)
    requires |key| in {4, 6, 8}
    ensures RoundKey(sbox, key, 0) == Block(key[0], key[1], key[2], key[3]) && Rcon(1) == 1
    ensures After(sbox, key, input, 0) == AddRoundKey(input, Block(key[0], key[1], key[2], key[3]))
  {
  }

  /** encrypt_128_key_expand_inline: the last round goes through the same loop body, masked. */
  method Encrypt128(state: array<Word>, key: array<Word>, t: Table, ghost sbox: SBox)
    requires RowsOf(t, sbox) && state.Length == 4 && key.Length == 4
    modifies state
    ensures StateOf(state) == Cipher(sbox, Columns(old(key[..])), old(StateOf(state)))
  {
    hide Bytes, RowsOf, Xor, W, Round, FinalRound, SubWord, RotWord, Rcon, RoundKey, AddRoundKey;
    ghost var w, input := Columns(key[..]), StateOf(state);
    var k0, k1, k2, k3 := key[0], key[1], key[2], key[3];
    Whiten(state, k0, k1, k2, k3);
    FirstKey(sbox, w, input);
    var rcon: bv8 := 1;
    var i := 1;
    while i <= 10
      invariant 1 <= i <= 11 && rcon == Rcon(i) && BlockOf(k0, k1, k2, k3) == RoundKey(sbox, w, i - 1)
      invariant StateOf(state) == if i == 11 then Cipher(sbox, w, input) else After(sbox, w, input, i - 1)
    {
      k0, k1, k2, k3 := NextKeys128(t, k0, k1, k2, k3, rcon, sbox, w, i);
      rcon := NextRcon(rcon);
      RconNext(i);
      TableRound(t, state, k0, k1, k2, k3, i == 10, sbox);
      i := i + 1;
    }
  }

  /** encrypt_128_key_expand_inline_no_branch: the last round unrolled. */
  method Encrypt128NoBranch(state: array<Word>, key: array<Word>, t: Table, ghost sbox: SBox)
    requires RowsOf(t, sbox) && state.Length == 4 && key.Length == 4
    modifies state
    ensures StateOf(state) == Cipher(sbox, Columns(old(key[..])), old(StateOf(state)))
  {
    hide Bytes, RowsOf, Xor, W, Round, FinalRound, SubWord, RotWord, Rcon, RoundKey, AddRoundKey;
    ghost var w, input := Columns(key[..]), StateOf(state);
    var k0, k1, k2, k3 := key[0], key[1], key[2], key[3];
    Whiten(state, k0, k1, k2, k3);
    FirstKey(sbox, w, input);
    var rcon: bv8 := 1;
    var i := 1;
    while i < 10
      invariant 1 <= i <= 10 && rcon == Rcon(i) && BlockOf(k0, k1, k2, k3) == RoundKey(sbox, w, i - 1)
      invariant StateOf(state) == After(sbox, w, input, i - 1)
    {
      k0, k1, k2, k3 := NextKeys128(t, k0, k1, k2, k3, rcon, sbox, w, i);
      rcon := NextRcon(rcon);
      RconNext(i);
      TableRound(t, state, k0, k1, k2, k3, false, sbox);
      i := i + 1;
    }
    k0, k1, k2, k3 := NextKeys128(t, k0, k1, k2, k3, rcon, sbox, w, 10);
    LastRound(t, state, k0, k1, k2, k3, sbox);
  }

  // ---------- 192-bit keys ----------

  /** Six words of the schedule from word i on. */
  ghost predicate Six(sbox: SBox, key: seq<Column>, i: nat, k0: Word, k1: Word, k2: Word, k3: Word, k4: Word, k5: Word)
    requires |key| == 6
  {
    && Bytes(k0) == W(sbox, key, i) && Bytes(k1) == W(sbox, key, i + 1) && Bytes(k2) == W(sbox, key, i + 2)
    && Bytes(k3) == W(sbox, key, i + 3) && Bytes(k4) == W(sbox, key, i + 4) && Bytes(k5) == W(sbox, key, i + 5)
  }

  /** Group g of six words follows from the group before it. */
  lemma Group192(sbox: SBox, key: seq<Column>, g: nat)
    requires |key| == 6 && g > 0
    ensures var i := 6 * g;
      && W(sbox, key, i) ==
         Xor(W(sbox, key, i - 6), Xor(SubWord(sbox, RotWord(W(sbox, key, i - 1))), Column(Rcon(g), 0, 0, 0)))
      && W(sbox, key, i + 1) == Xor(W(sbox, key, i - 5), W(sbox, key, i))
      && W(sbox, key, i + 2) == Xor(W(sbox, key, i - 4), W(sbox, key, i + 1))
      && W(sbox, key, i + 3) == Xor(W(sbox, key, i - 3), W(sbox, key, i + 2))
      && W(sbox, key, i + 4) == Xor(W(sbox, key, i - 2), W(sbox, key, i + 3))
      && W(sbox, key, i + 5) == Xor(W(sbox, key, i - 1), W(sbox, key, i + 4))
  {
    hide Xor, SubWord, RotWord, W;
    ScheduleRot(sbox, key, 6 * g, g);
    SchedulePlain(sbox, key, 6 * g + 1);
    SchedulePlain(sbox, key, 6 * g + 2);
    SchedulePlain(sbox, key, 6 * g + 3);
    SchedulePlain(sbox, key, 6 * g + 4);
    SchedulePlain(sbox, key, 6 * g + 5);
  }

  /** Rounds 3m + 1 and 3m + 2: from group 2m of the schedule to group 2m + 1. */
  method TwoRounds192(t: Table, state: array<Word>,
                      k0: Word, k1: Word, k2: Word, k3: Word, k4: Word, k5: Word, rcon: bv8,
                      ghost sbox: SBox, ghost key: seq<Column>, ghost input: Block, ghost m: nat)
    returns (k0': Word, k1': Word, k2': Word, k3': Word, k4': Word, k5': Word, rcon': bv8)
    requires RowsOf(t, sbox) && state.Length == 4 && |key| == 6
    requires rcon == Rcon(2 * m + 1) && Six(sbox, key, 12 * m, k0, k1, k2, k3, k4, k5)
    requires StateOf(state) == After(sbox, key, input, 3 * m)
    modifies state
    ensures rcon' == Rcon(2 * m + 2) && Six(sbox, key, 12 * m + 6, k0', k1', k2', k3', k4', k5')
    ensures StateOf(state) == After(sbox, key, input, 3 * m + 2)
  {
    hide Bytes, RowsOf, Xor, W, Round, SubWord, RotWord, Rcon;
    Group192(sbox, key, 2 * m + 1);
    var temp := Turned(t, k5, rcon, sbox);
    rcon' := NextRcon(rcon);
    RconNext(2 * m + 1);
    k0' := XorOf(k0, temp);
    k1' := XorOf(k1, k0');
    TableRound(t, state, k4, k5, k0', k1', false, sbox);
    k2' := XorOf(k2, k1');
    k3' := XorOf(k3, k2');
    k4' := XorOf(k4, k3');
    k5' := XorOf(k5, k4');
    TableRound(t, state, k2', k3', k4', k5', false, sbox);
  }

  /** The first four words of group 2m + 2, the key of round 3m + 3. */
  method NextKeys192(t: Table, k0: Word, k1: Word, k2: Word, k3: Word, k4: Word, k5: Word, rcon: bv8,
                     ghost sbox: SBox, ghost key: seq<Column>, ghost m: nat)
    returns (k0': Word, k1': Word, k2': Word, k3': Word)
    requires RowsOf(t, sbox) && |key| == 6
    requires rcon == Rcon(2 * m + 2) && Six(sbox, key, 12 * m + 6, k0, k1, k2, k3, k4, k5)
    ensures BlockOf(k0', k1', k2', k3') == RoundKey(sbox, key, 3 * m + 3)
  {
    hide Bytes, RowsOf, Xor, W, SubWord, RotWord, Rcon;
    Group192(sbox, key, 2 * m + 2);
    var temp := Turned(t, k5, rcon, sbox);
    k0' := XorOf(k0, temp);
    k1' := XorOf(k1, k0');
    k2' := XorOf(k2, k1');
    k3' := XorOf(k3, k2');
  }

  /** The key words after m passages of the loop: four words ahead, and two that still belong to the group before,
      except at the start. */
  ghost predicate Part192(sbox: SBox, key: seq<Column>, m: nat,
                          k0: Word, k1: Word, k2: Word, k3: Word, k4: Word, k5: Word)
    requires |key| == 6
  {
    && BlockOf(k0, k1, k2, k3) == RoundKey(sbox, key, 3 * m)
    && Bytes(k4) == W(sbox, key, if m == 0 then 4 else 12 * m - 2)
    && Bytes(k5) == W(sbox, key, if m == 0 then 5 else 12 * m - 1)
  }

  /** The words k4 and k5 catch up, except at the start. */
  method FinishGroup192(k0: Word, k1: Word, k2: Word, k3: Word, k4: Word, k5: Word, entered: bool,
                        ghost sbox: SBox, ghost key: seq<Column>, ghost m: nat)
    returns (k4': Word, k5': Word)
    requires |key| == 6 && entered == (m > 0) && Part192(sbox, key, m, k0, k1, k2, k3, k4, k5)
    ensures Six(sbox, key, 12 * m, k0, k1, k2, k3, k4', k5')
  {
    hide Bytes, Xor, W, SubWord, RotWord, Rcon;
    k4', k5' := k4, k5;
    if entered {
      Group192(sbox, key, 2 * m);
      k4' := XorOf(k4, k3);
      k5' := XorOf(k5, k4');
    }
  }

  /** Rounds 3m + 1 to 3m + 3. */
  method ThreeRounds192(t: Table, state: array<Word>,
                        k0: Word, k1: Word, k2: Word, k3: Word, k4: Word, k5: Word, rcon: bv8,
                        ghost sbox: SBox, ghost key: seq<Column>, ghost input: Block, ghost m: nat)
    returns (k0': Word, k1': Word, k2': Word, k3': Word, k4': Word, k5': Word, rcon': bv8)
    requires RowsOf(t, sbox) && state.Length == 4 && |key| == 6
    requires rcon == Rcon(2 * m + 1) && Six(sbox, key, 12 * m, k0, k1, k2, k3, k4, k5)
    requires StateOf(state) == After(sbox, key, input, 3 * m)
    modifies state
    ensures rcon' == Rcon(2 * m + 3) && Part192(sbox, key, m + 1, k0', k1', k2', k3', k4', k5')
    ensures StateOf(state) == After(sbox, key, input, 3 * m + 3)
  {
    hide Bytes, RowsOf, Xor, W, Round, SubWord, RotWord, Rcon, BlockOf, RoundKey;
    k0', k1', k2', k3', k4', k5', rcon' := TwoRounds192(t, state, k0, k1, k2, k3, k4, k5, rcon, sbox, key, input, m);
    k0', k1', k2', k3' := NextKeys192(t, k0', k1', k2', k3', k4', k5', rcon', sbox, key, m);
    rcon' := NextRcon(rcon');
    RconNext(2 * m + 2);
    TableRound(t, state, k0', k1', k2', k3', false, sbox);
  }

  /** Rounds 10 to 12. */
  method LastRounds192(t: Table, state: array<Word>,
                       k0: Word, k1: Word, k2: Word, k3: Word, k4: Word, k5: Word, rcon: bv8,
                       ghost sbox: SBox, ghost key: seq<Column>, ghost input: Block)
    requires RowsOf(t, sbox) && state.Length == 4 && |key| == 6
    requires rcon == Rcon(7) && Six(sbox, key, 36, k0, k1, k2, k3, k4, k5)
    requires StateOf(state) == After(sbox, key, input, 9)
    modifies state
    ensures StateOf(state) == Cipher(sbox, key, input)
  {
    hide Bytes, RowsOf, Xor, W, Round, FinalRound, SubWord, RotWord, Rcon, BlockOf, RoundKey, After;
    var k0', k1', k2', k3', k4', k5', rcon' :=
      TwoRounds192(t, state, k0, k1, k2, k3, k4, k5, rcon, sbox, key, input, 3);
    k0', k1', k2', k3' := NextKeys192(t, k0', k1', k2', k3', k4', k5', rcon', sbox, key, 3);
    LastRound(t, state, k0', k1', k2', k3', sbox);
  }

  /** encrypt_192_key_expand_inline_no_branch. The program jumps into the loop behind its first two assignments;
      `entered` is false on that first passage alone. */
  method Encrypt192(state: array<Word>, key: array<Word>, t: Table, ghost sbox: SBox)
    requires RowsOf(t, sbox) && state.Length == 4 && key.Length == 6
    modifies state
    ensures StateOf(state) == Cipher(sbox, Columns(old(key[..])), old(StateOf(state)))
  {
    hide Bytes, RowsOf, Xor, W, Round, FinalRound, SubWord, RotWord, Rcon, AddRoundKey, After, Cipher, Part192, Six;
    ghost var w, input := Columns(key[..]), StateOf(state);
    var k0, k1, k2, k3, k4, k5 := key[0], key[1], key[2], key[3], key[4], key[5];
    Whiten(state, k0, k1, k2, k3);
    FirstKey(sbox, w, input);
    FirstSix(sbox, w, k0, k1, k2, k3, k4, k5);
    var rcon: bv8 := 1;
    var i, entered := 1, false;
    while i <= 3
      invariant 1 <= i <= 4 && rcon == Rcon(2 * i - 1) && entered == (i > 1)
      invariant Part192(sbox, w, i - 1, k0, k1, k2, k3, k4, k5)
      invariant StateOf(state) == After(sbox, w, input, 3 * i - 3)
    {
      k4, k5 := FinishGroup192(k0, k1, k2, k3, k4, k5, entered, sbox, w, i - 1);
      entered := true;
      k0, k1, k2, k3, k4, k5, rcon := ThreeRounds192(t, state, k0, k1, k2, k3, k4, k5, rcon, sbox, w, input, i - 1);
      i := i + 1;
    }
    k4, k5 := FinishGroup192(k0, k1, k2, k3, k4, k5, true, sbox, w, 3);
    LastRounds192(t, state, k0, k1, k2, k3, k4, k5, rcon, sbox, w, input);
  }

  lemma FirstSix(sbox: SBox, key: seq<Column>, k0: Word, k1: Word, k2: Word, k3: Word, k4: Word, k5: Word)
    requires key == Columns([k0, k1, k2, k3, k4, k5])
    ensures Part192(sbox, key, 0, k0, k1, k2, k3, k4, k5)
  {
    hide Bytes, Columns;
    FirstWords(sbox, key);
  }

  lemma FirstWords(sbox: SBox, key: seq<Column>)
    requires |key| in {4, 6, 8}
    ensures forall i :: 0 <= i < |key| ==> W(sbox, key, i) == key[i]
  {
  }

  // ---------- 256-bit keys ----------

  /** Group g of eight words follows from the group before it. */
  lemma Group256(sbox: SBox, key: seq<Column>, g: nat)
    requires |key| == 8 && g > 0
    ensures var i := 8 * g;
      && W(sbox, key, i) ==
         Xor(W(sbox, key, i - 8), Xor(SubWord(sbox, RotWord(W(sbox, key, i - 1))), Column(Rcon(g), 0, 0, 0)))
      && W(sbox, key, i + 1) == Xor(W(sbox, key, i - 7), W(sbox, key, i))
      && W(sbox, key, i + 2) == Xor(W(sbox, key, i - 6), W(sbox, key, i + 1))
      && W(sbox, key, i + 3) == Xor(W(sbox, key, i - 5), W(sbox, key, i + 2))
      && W(sbox, key, i + 4) == Xor(W(sbox, key, i - 4), SubWord(sbox, W(sbox, key, i + 3)))
      && W(sbox, key, i + 5) == Xor(W(sbox, key, i - 3), W(sbox, key, i + 4))
      && W(sbox, key, i + 6) == Xor(W(sbox, key, i - 2), W(sbox, key, i + 5))
      && W(sbox, key, i + 7) == Xor(W(sbox, key, i - 1), W(sbox, key, i + 6))
  {
    hide Xor, SubWord, RotWord, W;
    ScheduleRot(sbox, key, 8 * g, g);
    SchedulePlain(sbox, key, 8 * g + 1);
    SchedulePlain(sbox, key, 8 * g + 2);
    SchedulePlain(sbox, key, 8 * g + 3);
    ScheduleSub(sbox, key, 8 * g + 4);
    SchedulePlain(sbox, key, 8 * g + 5);
    SchedulePlain(sbox, key, 8 * g + 6);
    SchedulePlain(sbox, key, 8 * g + 7);
  }

  /** The first half of group g: from the round key before the last and the last word. */
  method FirstHalf256(t: Table, k0: Word, k1: Word, k2: Word, k3: Word, k7: Word, rcon: bv8,
                      ghost sbox: SBox, ghost key: seq<Column>, ghost g: nat)
    returns (k0': Word, k1': Word, k2': Word, k3': Word)
    requires RowsOf(t, sbox) && |key| == 8 && g > 0 && rcon == Rcon(g) && Bytes(k7) == W(sbox, key, 8 * g - 1)
    requires BlockOf(k0, k1, k2, k3) == RoundKey(sbox, key, 2 * g - 2)
    ensures BlockOf(k0', k1', k2', k3') == RoundKey(sbox, key, 2 * g)
  {
    hide Bytes, RowsOf, Xor, W, SubWord, RotWord, Rcon;
    Group256(sbox, key, g);
    var temp := Turned(t, k7, rcon, sbox);
    k0' := XorOf(k0, temp);
    k1' := XorOf(k1, k0');
    k2' := XorOf(k2, k1');
    k3' := XorOf(k3, k2');
  }

  /** The second half of group g. */
  method SecondHalf256(t: Table, k3: Word, k4: Word, k5: Word, k6: Word, k7: Word,
                       ghost sbox: SBox, ghost key: seq<Column>, ghost g: nat)
    returns (k4': Word, k5': Word, k6': Word, k7': Word)
    requires RowsOf(t, sbox) && |key| == 8 && g > 0 && Bytes(k3) == W(sbox, key, 8 * g + 3)
    requires BlockOf(k4, k5, k6, k7) == RoundKey(sbox, key, 2 * g - 1)
    ensures BlockOf(k4', k5', k6', k7') == RoundKey(sbox, key, 2 * g + 1)
  {
    hide Bytes, RowsOf, Xor, W, SubWord, RotWord, Rcon;
    Group256(sbox, key, g);
    var temp := SubBytesOf(t, k3, sbox);
    k4' := XorOf(k4, temp);
    k5' := XorOf(k5, k4');
    k6' := XorOf(k6, k5');
    k7' := XorOf(k7, k6');
  }

  /** The key words after m passages of the loop: four words ahead, and four that still belong to the group before,
      except at the start. */
  ghost predicate Part256(sbox: SBox, key: seq<Column>, m: nat, k0: Word, k1: Word, k2: Word, k3: Word,
                          k4: Word, k5: Word, k6: Word, k7: Word)
    requires |key| == 8
  {
    && BlockOf(k0, k1, k2, k3) == RoundKey(sbox, key, 2 * m)
    && BlockOf(k4, k5, k6, k7) == RoundKey(sbox, key, if m == 0 then 1 else 2 * m - 1)
  }

  lemma FirstEight(sbox: SBox, key: seq<Column>,
                   k0: Word, k1: Word, k2: Word, k3: Word, k4: Word, k5: Word, k6: Word, k7: Word)
    requires key == Columns([k0, k1, k2, k3, k4, k5, k6, k7])
    ensures Part256(sbox, key, 0, k0, k1, k2, k3, k4, k5, k6, k7)
  {
    hide Bytes, Columns;
    FirstWords(sbox, key);
  }

  /** Rounds 2m + 1 and 2m + 2. */
  method TwoRounds256(t: Table, state: array<Word>, k0: Word, k1: Word, k2: Word, k3: Word,
                      k4: Word, k5: Word, k6: Word, k7: Word, rcon: bv8, entered: bool,
                      ghost sbox: SBox, ghost key: seq<Column>, ghost input: Block, ghost m: nat)
    returns (k0': Word, k1': Word, k2': Word, k3': Word, k4': Word, k5': Word, k6': Word, k7': Word, rcon': bv8)
    requires RowsOf(t, sbox) && state.Length == 4 && |key| == 8 && rcon == Rcon(m + 1) && entered == (m > 0)
    requires Part256(sbox, key, m, k0, k1, k2, k3, k4, k5, k6, k7)
    requires StateOf(state) == After(sbox, key, input, 2 * m)
    modifies state
    ensures rcon' == Rcon(m + 2) && Part256(sbox, key, m + 1, k0', k1', k2', k3', k4', k5', k6', k7')
    ensures StateOf(state) == After(sbox, key, input, 2 * m + 2)
  {
    hide Bytes, RowsOf, Xor, W, Round, SubWord, RotWord, Rcon;
    k4', k5', k6', k7' := k4, k5, k6, k7;
    if entered {
      k4', k5', k6', k7' := SecondHalf256(t, k3, k4, k5, k6, k7, sbox, key, m);
    }
    TableRound(t, state, k4', k5', k6', k7', false, sbox);
    k0', k1', k2', k3' := FirstHalf256(t, k0, k1, k2, k3, k7', rcon, sbox, key, m + 1);
    rcon' := NextRcon(rcon);
    RconNext(m + 1);
    TableRound(t, state, k0', k1', k2', k3', false, sbox);
  }

  /** Rounds 13 and 14. */
  method LastRounds256(t: Table, state: array<Word>, k0: Word, k1: Word, k2: Word, k3: Word,
                       k4: Word, k5: Word, k6: Word, k7: Word, rcon: bv8,
                       ghost sbox: SBox, ghost key: seq<Column>, ghost input: Block)
    requires RowsOf(t, sbox) && state.Length == 4 && |key| == 8 && rcon == Rcon(7)
    requires Part256(sbox, key, 6, k0, k1, k2, k3, k4, k5, k6, k7)
    requires StateOf(state) == After(sbox, key, input, 12)
    modifies state
    ensures StateOf(state) == Cipher(sbox, key, input)
  {
    hide Bytes, RowsOf, Xor, W, Round, FinalRound, SubWord, RotWord, Rcon;
    var k4', k5', k6', k7' := SecondHalf256(t, k3, k4, k5, k6, k7, sbox, key, 6);
    TableRound(t, state, k4', k5', k6', k7', false, sbox);
    var k0', k1', k2', k3' := FirstHalf256(t, k0, k1, k2, k3, k7', rcon, sbox, key, 7);
    LastRound(t, state, k0', k1', k2', k3', sbox);
  }

  /** encrypt_256_key_expand_inline_no_branch. Again the program jumps into the loop, behind the computation of
      k4 to k7; `entered` is false on that first passage alone. */
  method Encrypt256(state: array<Word>, key: array<Word>, t: Table, ghost sbox: SBox)
    requires RowsOf(t, sbox) && state.Length == 4 && key.Length == 8
    modifies state
    ensures StateOf(state) == Cipher(sbox, Columns(old(key[..])), old(StateOf(state)))
  {
    hide Bytes, RowsOf, Xor, W, Round, FinalRound, SubWord, RotWord, Rcon, AddRoundKey, After, Cipher, Part256;
    ghost var w, input := Columns(key[..]), StateOf(state);
    var k0, k1, k2, k3, k4, k5, k6, k7 := key[0], key[1], key[2], key[3], key[4], key[5], key[6], key[7];
    Whiten(state, k0, k1, k2, k3);
    FirstKey(sbox, w, input);
    FirstEight(sbox, w, k0, k1, k2, k3, k4, k5, k6, k7);
    var rcon: bv8 := 1;
    var i, entered := 1, false;
    while i <= 6
      invariant 1 <= i <= 7 && rcon == Rcon(i) && entered == (i > 1)
      invariant Part256(sbox, w, i - 1, k0, k1, k2, k3, k4, k5, k6, k7)
      invariant StateOf(state) == After(sbox, w, input, 2 * i - 2)
    {
      k0, k1, k2, k3, k4, k5, k6, k7, rcon :=
        TwoRounds256(t, state, k0, k1, k2, k3, k4, k5, k6, k7, rcon, entered, sbox, w, input, i - 1);
      entered := true;
      i := i + 1;
    }
    LastRounds256(t, state, k0, k1, k2, k3, k4, k5, k6, k7, rcon, sbox, w, input);
  }
}
