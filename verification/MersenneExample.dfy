/**
 Outputs worked out from the first word on: for the seed 5489, the first and the third, which are
 14514284786278117030 and 13109570281517897720 in the reference implementation of MT19937-64.
 */
module MersenneExample {
  import opened MersenneTemper
  import opened MersenneTwister

  /** Word `i` of the seed 5489. */
  ghost predicate IsWord(i: nat, w: bv64) {
    i < NN && SeedWords(5489, NN)[i] == w
  }

  lemma {:induction false} NextWord(i: nat, w: bv64, w': bv64)
    requires i + 1 < NN && IsWord(i, w) && SeedWord(w, i + 1) == w'
    ensures IsWord(i + 1, w')
  {
    hide SeedWord;
    SeedWordsAt(5489, NN, i + 1);
  }

  lemma {:induction false} Words0()
    requires IsWord(0, 0x0000000000001571)
    ensures IsWord(20, 0xE21A56B927CC049E)
    ensures IsWord(1, 0xB5347F47116BD3DE)
    ensures IsWord(2, 0x9165B5762D1A61AE)
    ensures IsWord(3, 0xD139B6BBED337F3F)
  {
    hide IsWord;
    NextWord(0, 0x0000000000001571, 0xB5347F47116BD3DE);
    NextWord(1, 0xB5347F47116BD3DE, 0x9165B5762D1A61AE);
    NextWord(2, 0x9165B5762D1A61AE, 0xD139B6BBED337F3F);
    NextWord(3, 0xD139B6BBED337F3F, 0x37E740001C182190);
    NextWord(4, 0x37E740001C182190, 0xE398F84731B45655);
    NextWord(5, 0xE398F84731B45655, 0x097392E1FB95D724);
    NextWord(6, 0x097392E1FB95D724, 0x102FF8F17705AD5B);
    NextWord(7, 0x102FF8F17705AD5B, 0xAFD3B741A6F69E07);
    NextWord(8, 0xAFD3B741A6F69E07, 0x3673B7B326A741EA);
    NextWord(9, 0x3673B7B326A741EA, 0x967BEFB79A4BAC2C);
    NextWord(10, 0x967BEFB79A4BAC2C, 0x81579A10887E1621);
    NextWord(11, 0x81579A10887E1621, 0xFA4F68BAD1844133);
    NextWord(12, 0xFA4F68BAD1844133, 0xD26A818BA186457D);
    NextWord(13, 0xD26A818BA186457D, 0x58EA399ADB69B934);
    NextWord(14, 0x58EA399ADB69B934, 0x7BE61CE78C4FD960);
    NextWord(15, 0x7BE61CE78C4FD960, 0x6520FC5E9855551D);
    NextWord(16, 0x6520FC5E9855551D, 0xC641EF0DF584D9FD);
    NextWord(17, 0xC641EF0DF584D9FD, 0xE8B0B2F1595553B8);
    NextWord(18, 0xE8B0B2F1595553B8, 0x2ACC772248607CF2);
    NextWord(19, 0x2ACC772248607CF2, 0xE21A56B927CC049E);
  }

  lemma {:induction false} Words20()
    requires IsWord(20, 0xE21A56B927CC049E)
    ensures IsWord(40, 0x7F7D617ACECC3F45)
  {
    hide IsWord;
    NextWord(20, 0xE21A56B927CC049E, 0x222B48008087B2AE);
    NextWord(21, 0x222B48008087B2AE, 0xCFFD407690C4BAAC);
    NextWord(22, 0xCFFD407690C4BAAC, 0x185E6D58A70CA1DA);
    NextWord(23, 0x185E6D58A70CA1DA, 0xA47F692D8D65996A);
    NextWord(24, 0xA47F692D8D65996A, 0xD80BA31C6B7E8F61);
    NextWord(25, 0xD80BA31C6B7E8F61, 0xB35584C73A6AD254);
    NextWord(26, 0xB35584C73A6AD254, 0x92AAD4BC372DA339);
    NextWord(27, 0x92AAD4BC372DA339, 0x59C35BD9DC56F67B);
    NextWord(28, 0x59C35BD9DC56F67B, 0x5FEEE4D68C91D98F);
    NextWord(29, 0x5FEEE4D68C91D98F, 0xA20C5CE2D836B014);
    NextWord(30, 0xA20C5CE2D836B014, 0x6EE0DD1C27C5DDFD);
    NextWord(31, 0x6EE0DD1C27C5DDFD, 0x8A81EF0B2A94096C);
    NextWord(32, 0x8A81EF0B2A94096C, 0xA161CA6211B93A77);
    NextWord(33, 0xA161CA6211B93A77, 0x2A3A52C2C3A851B3);
    NextWord(34, 0x2A3A52C2C3A851B3, 0x8CD8FCFC964D299A);
    NextWord(35, 0x8CD8FCFC964D299A, 0x039559F108AAB7DC);
    NextWord(36, 0x039559F108AAB7DC, 0xAA981E498A4475D1);
    NextWord(37, 0xAA981E498A4475D1, 0x47B66D6F7C4B633D);
    NextWord(38, 0x47B66D6F7C4B633D, 0x9FF6E624D16735B3);
    NextWord(39, 0x9FF6E624D16735B3, 0x7F7D617ACECC3F45);
  }

  lemma {:induction false} Words40()
    requires IsWord(40, 0x7F7D617ACECC3F45)
    ensures IsWord(60, 0x3E32761E6D7FA19A)
  {
    hide IsWord;
    NextWord(40, 0x7F7D617ACECC3F45, 0x38FCFDCAAFDDDB1D);
    NextWord(41, 0x38FCFDCAAFDDDB1D, 0x14928B261D93E743);
    NextWord(42, 0x14928B261D93E743, 0xFE6000E410B8E3F2);
    NextWord(43, 0xFE6000E410B8E3F2, 0xB208B107E0D9A089);
    NextWord(44, 0xB208B107E0D9A089, 0x82F135B131CD2D9C);
    NextWord(45, 0x82F135B131CD2D9C, 0x987DDA96FFA866F4);
    NextWord(46, 0x987DDA96FFA866F4, 0xE1EBB23270DC236D);
    NextWord(47, 0xE1EBB23270DC236D, 0x02F775D6534BCC86);
    NextWord(48, 0x02F775D6534BCC86, 0x2916B16310C76DBF);
    NextWord(49, 0x2916B16310C76DBF, 0x8BB8A2F776AB0BC5);
    NextWord(50, 0x8BB8A2F776AB0BC5, 0x7ED20066A5BBCB2E);
    NextWord(51, 0x7ED20066A5BBCB2E, 0xBF99B825822A0877);
    NextWord(52, 0xBF99B825822A0877, 0x175137B563AE87C6);
    NextWord(53, 0x175137B563AE87C6, 0x8ED13207E9471804);
    NextWord(54, 0x8ED13207E9471804, 0xC8BE8AAF09E83345);
    NextWord(55, 0xC8BE8AAF09E83345, 0xD6F2A55B8EFEBD86);
    NextWord(56, 0xD6F2A55B8EFEBD86, 0x33EC6BF14D354B9A);
    NextWord(57, 0x33EC6BF14D354B9A, 0x1AA08340BB81B04C);
    NextWord(58, 0x1AA08340BB81B04C, 0x658C3F94787DB197);
    NextWord(59, 0x658C3F94787DB197, 0x3E32761E6D7FA19A);
  }

  lemma {:induction false} Words60()
    requires IsWord(60, 0x3E32761E6D7FA19A)
    ensures IsWord(80, 0x23044078EFC82346)
  {
    hide IsWord;
    NextWord(60, 0x3E32761E6D7FA19A, 0xB6DFAB00573CCE4F);
    NextWord(61, 0xB6DFAB00573CCE4F, 0xC4EDB5826ED976C7);
    NextWord(62, 0xC4EDB5826ED976C7, 0x9E186133AE391CB3);
    NextWord(63, 0x9E186133AE391CB3, 0xC8B2D463344ADA5D);
    NextWord(64, 0xC8B2D463344ADA5D, 0x01182F4C543304C7);
    NextWord(65, 0x01182F4C543304C7, 0xB99FD847F829903D);
    NextWord(66, 0xB99FD847F829903D, 0xB5ADE6D9E6889C56);
    NextWord(67, 0xB5ADE6D9E6889C56, 0x53F2F45B38752708);
    NextWord(68, 0x53F2F45B38752708, 0x9E6E49666F3253DA);
    NextWord(69, 0x9E6E49666F3253DA, 0xFC88FE527028E53E);
    NextWord(70, 0xFC88FE527028E53E, 0x0B8275B6896A8F00);
    NextWord(71, 0x0B8275B6896A8F00, 0x6964FFBB3FAC2348);
    NextWord(72, 0x6964FFBB3FAC2348, 0x957EC9FFCC406B1E);
    NextWord(73, 0x957EC9FFCC406B1E, 0x8149ED8183C1B836);
    NextWord(74, 0x8149ED8183C1B836, 0x0B6423B4E9B32D6F);
    NextWord(75, 0x0B6423B4E9B32D6F, 0x8FEA06065DA40DCF);
    NextWord(76, 0x8FEA06065DA40DCF, 0x737C3D30BD002056);
    NextWord(77, 0x737C3D30BD002056, 0x800B954BEFB3D899);
    NextWord(78, 0x800B954BEFB3D899, 0x0F91A17D7148F88E);
    NextWord(79, 0x0F91A17D7148F88E, 0x23044078EFC82346);
  }

  lemma {:induction false} Words80()
    requires IsWord(80, 0x23044078EFC82346)
    ensures IsWord(100, 0x429CFBFCEE91AE31)
  {
    hide IsWord;
    NextWord(80, 0x23044078EFC82346, 0xD2413979BF6BED9F);
    NextWord(81, 0xD2413979BF6BED9F, 0x3C786924CCA528BE);
    NextWord(82, 0x3C786924CCA528BE, 0x147B229D06D46BB9);
    NextWord(83, 0x147B229D06D46BB9, 0xCAC949203374B6D9);
    NextWord(84, 0xCAC949203374B6D9, 0xB47359B9171C4AA7);
    NextWord(85, 0xB47359B9171C4AA7, 0x7AB3D4A18709FA57);
    NextWord(86, 0x7AB3D4A18709FA57, 0x82C40AA0EBFFAB75);
    NextWord(87, 0x82C40AA0EBFFAB75, 0x877A85FE72442D43);
    NextWord(88, 0x877A85FE72442D43, 0xDAB66FF48B4433C6);
    NextWord(89, 0xDAB66FF48B4433C6, 0x4BF32AC4EE54D4FB);
    NextWord(90, 0x4BF32AC4EE54D4FB, 0x6A57D5662813764D);
    NextWord(91, 0x6A57D5662813764D, 0xF2E186A51D577FB8);
    NextWord(92, 0xF2E186A51D577FB8, 0x368B524C6C96393C);
    NextWord(93, 0x368B524C6C96393C, 0x4BFA6D46BCB8D3EA);
    NextWord(94, 0x4BFA6D46BCB8D3EA, 0x5D423FDAF965D5AE);
    NextWord(95, 0x5D423FDAF965D5AE, 0x19C09AAFAEC36123);
    NextWord(96, 0x19C09AAFAEC36123, 0xF8BB804992E77088);
    NextWord(97, 0xF8BB804992E77088, 0x0DF7875C686ABDD1);
    NextWord(98, 0x0DF7875C686ABDD1, 0x7741AB42D5930D20);
    NextWord(99, 0x7741AB42D5930D20, 0x429CFBFCEE91AE31);
  }

  lemma {:induction false} Words100()
    requires IsWord(100, 0x429CFBFCEE91AE31)
    ensures IsWord(120, 0x8B1F37B4EDEDB9A3)
  {
    hide IsWord;
    NextWord(100, 0x429CFBFCEE91AE31, 0xBE763EC0D6F56ED5);
    NextWord(101, 0xBE763EC0D6F56ED5, 0x9AC91415E2442531);
    NextWord(102, 0x9AC91415E2442531, 0x2CCA75C45F1DD75E);
    NextWord(103, 0x2CCA75C45F1DD75E, 0xC5CDCA88C7CC7DEE);
    NextWord(104, 0xC5CDCA88C7CC7DEE, 0xB0887B3A385BB612);
    NextWord(105, 0xB0887B3A385BB612, 0x2B73D36F1EC0F13A);
    NextWord(106, 0x2B73D36F1EC0F13A, 0xB73E27E5BE582D9D);
    NextWord(107, 0xB73E27E5BE582D9D, 0x113C84A0F5ACE65F);
    NextWord(108, 0x113C84A0F5ACE65F, 0x8F1386E53EF8A020);
    NextWord(109, 0x8F1386E53EF8A020, 0xCD9074C2B4EF0468);
    NextWord(110, 0xCD9074C2B4EF0468, 0x5B702538B77BDC3E);
    NextWord(111, 0x5B702538B77BDC3E, 0xDC4A018B97B3F883);
    NextWord(112, 0xDC4A018B97B3F883, 0x9B0BEDD1956A2EF1);
    NextWord(113, 0x9B0BEDD1956A2EF1, 0xAAB8206B6863CE29);
    NextWord(114, 0xAAB8206B6863CE29, 0x999B98859FD99302);
    NextWord(115, 0x999B98859FD99302, 0x9E999210982BD774);
    NextWord(116, 0x9E999210982BD774, 0x46B1D5A1EF466A33);
    NextWord(117, 0x46B1D5A1EF466A33, 0x06F16177A5297940);
    NextWord(118, 0x06F16177A5297940, 0x248F3E5A2DB110B7);
    NextWord(119, 0x248F3E5A2DB110B7, 0x8B1F37B4EDEDB9A3);
  }

  lemma {:induction false} Words120()
    requires IsWord(120, 0x8B1F37B4EDEDB9A3)
    ensures IsWord(140, 0x1EDAA63E5ADBEF14)
  {
    hide IsWord;
    NextWord(120, 0x8B1F37B4EDEDB9A3, 0x8FB8B09C989580C6);
    NextWord(121, 0x8FB8B09C989580C6, 0x9A8C5EEB1F3CDEEE);
    NextWord(122, 0x9A8C5EEB1F3CDEEE, 0x04BAB3EB7FA643F7);
    NextWord(123, 0x04BAB3EB7FA643F7, 0x68327B16CEB47BE7);
    NextWord(124, 0x68327B16CEB47BE7, 0x652AD6D0440EE1EB);
    NextWord(125, 0x652AD6D0440EE1EB, 0xF57FDA3C4DE2CCA0);
    NextWord(126, 0xF57FDA3C4DE2CCA0, 0x247245A5B341D626);
    NextWord(127, 0x247245A5B341D626, 0xE8012FA117ED7F2E);
    NextWord(128, 0xE8012FA117ED7F2E, 0x31E6F8156807AE6A);
    NextWord(129, 0x31E6F8156807AE6A, 0x5524BF4114923F24);
    NextWord(130, 0x5524BF4114923F24, 0x89ECA903E7917504);
    NextWord(131, 0x89ECA903E7917504, 0x9D78E605C21D8C92);
    NextWord(132, 0x9D78E605C21D8C92, 0x8213008D57BD25D5);
    NextWord(133, 0x8213008D57BD25D5, 0x2845027D1C285051);
    NextWord(134, 0x2845027D1C285051, 0x88CF2E81BE134DC4);
    NextWord(135, 0x88CF2E81BE134DC4, 0xE59A4A3B0937E656);
    NextWord(136, 0xE59A4A3B0937E656, 0xA14CCCCEA590A87A);
    NextWord(137, 0xA14CCCCEA590A87A, 0x8A7FD0C38BD925A2);
    NextWord(138, 0x8A7FD0C38BD925A2, 0xC505AE6EB4F5FDAB);
    NextWord(139, 0xC505AE6EB4F5FDAB, 0x1EDAA63E5ADBEF14);
  }

  lemma {:induction false} Words140()
    requires IsWord(140, 0x1EDAA63E5ADBEF14)
    ensures IsWord(158, 0x16CD2293A14B5D4E)
    ensures IsWord(156, 0x245B1C66FA082BFF)
  {
    hide IsWord;
    NextWord(140, 0x1EDAA63E5ADBEF14, 0x48086B892AE7F311);
    NextWord(141, 0x48086B892AE7F311, 0x2CE7C25ED4AAAA5E);
    NextWord(142, 0x2CE7C25ED4AAAA5E, 0x6A9E329B1D3A9515);
    NextWord(143, 0x6A9E329B1D3A9515, 0xBE9684A2E7E52114);
    NextWord(144, 0xBE9684A2E7E52114, 0xEAB0E8BA387EBB6F);
    NextWord(145, 0xEAB0E8BA387EBB6F, 0xE7CBAE25F31D868E);
    NextWord(146, 0xE7CBAE25F31D868E, 0x5581BF318E019A5C);
    NextWord(147, 0x5581BF318E019A5C, 0xB07E184435FD45ED);
    NextWord(148, 0xB07E184435FD45ED, 0x20BACEF5CB51DC98);
    NextWord(149, 0x20BACEF5CB51DC98, 0xAAAA9BECDE4B2F4E);
    NextWord(150, 0xAAAA9BECDE4B2F4E, 0x898B5F1376EA04F3);
    NextWord(151, 0x898B5F1376EA04F3, 0xCB65A0736BDB6DF5);
    NextWord(152, 0xCB65A0736BDB6DF5, 0x47E02E65D94D5ED7);
    NextWord(153, 0x47E02E65D94D5ED7, 0x99EAC4824F33D638);
    NextWord(154, 0x99EAC4824F33D638, 0xA1C29D298B256ECD);
    NextWord(155, 0xA1C29D298B256ECD, 0x245B1C66FA082BFF);
    NextWord(156, 0x245B1C66FA082BFF, 0x0252CFC850AE3D70);
    NextWord(157, 0x0252CFC850AE3D70, 0x16CD2293A14B5D4E);
  }

  lemma {:induction false} WordsNeeded()
    ensures IsWord(0, 5489) && IsWord(1, 0xB5347F47116BD3DE) && IsWord(2, 0x9165B5762D1A61AE) && IsWord(3, 0xD139B6BBED337F3F)
    ensures IsWord(156, 0x245B1C66FA082BFF) && IsWord(158, 0x16CD2293A14B5D4E)
  {
    hide SeedWord;
    assert IsWord(0, 5489);
    hide IsWord;
    Words0();
    Words20();
    Words40();
    Words60();
    Words80();
    Words100();
    Words120();
    Words140();
  }

  /** A joined word that is even is only shifted, and one that is odd takes MATRIX_A. */
  lemma {:induction false} Twists()
    ensures Twist(5489, 0xB5347F47116BD3DE, 0x245B1C66FA082BFF) == 0x245B1C66F2BDC210
    ensures Twist(0x9165B5762D1A61AE, 0xD139B6BBED337F3F, 0x16CD2293A14B5D4E) == 0xEB7D97723EB4FB38
  {
  }

  lemma {:induction false} Tempered()
    ensures Temper(0x245B1C66F2BDC210) == 14514284786278117030
    ensures Temper(0xEB7D97723EB4FB38) == 13109570281517897720
  {
  }

  /** Main result: the first and the third output for the seed that stands for no seed. */
  lemma {:induction false} OutputsOf5489()
    ensures Temper(Word(SeedWords(5489, NN), NN)) == 14514284786278117030
    ensures Temper(Word(SeedWords(5489, NN), NN + 2)) == 13109570281517897720
  {
    var seed := SeedWords(5489, NN);
    WordsNeeded();
    Twists();
    Tempered();
    WordStep(seed, 0);
    WordStep(seed, 2);
    SeedIs(seed, 0);
    SeedIs(seed, 1);
    SeedIs(seed, 2);
    SeedIs(seed, 3);
    SeedIs(seed, MM);
    SeedIs(seed, MM + 2);
    hide Word, Twist, Temper, SeedWords;
  }

  lemma {:induction false} SeedIs(seed: seq<bv64>, i: nat)
    requires |seed| == NN && i < NN
    ensures Word(seed, i) == seed[i]
  {
  }

  /** One round of either loop of init_by_array64, with its factor. */
  lemma {:induction false} RoundsOfTheLoops()
    ensures KeyWord(0x0123456789ABCDEF, 0xFEDCBA9876543210, 0x12345, 3) == 0xC8FD602C92E5A078
    ensures IndexWord(0x0123456789ABCDEF, 0xFEDCBA9876543210, 7) == 0x38092404CC194121
  {
  }
}
