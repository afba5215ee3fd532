/**
 Where the 64 constants of MD5 come from (section 3.4 of RFC 1321): entry i - 1 of the
 table is the whole part of 2^32 * |sin(i)|, with i in radians. The sine of 1 and the
 cosine of 1 are numbers between all partial sums of their series, and the other sines
 follow by the addition theorem. The proof bounds them with fixed-point numbers.
 */
module Md5Sines {
  import opened MachineInt
  import Md5

  // Sines

  /** The k-th term of the series for sin(1), without its sign, counted from 1. */
  function SineTerm(k: nat): real {
    if k <= 1 then 1.0 else SineTerm(k - 1) / (2 * k - 2) as real / (2 * k - 1) as real
  }

  function CosineTerm(k: nat): real {
    if k <= 1 then 1.0 else CosineTerm(k - 1) / (2 * k - 3) as real / (2 * k - 2) as real
  }

  /** The sum of the first k terms, with alternating signs. */
  function SineSum(k: nat): real {
    if k == 0 then 0.0 else if k % 2 == 1 then SineSum(k - 1) + SineTerm(k) else SineSum(k - 1) - SineTerm(k)
  }

  function CosineSum(k: nat): real {
    if k == 0 then 0.0 else if k % 2 == 1 then CosineSum(k - 1) + CosineTerm(k) else CosineSum(k - 1) - CosineTerm(k)
  }

  /** The sums of an odd number of terms are above sin(1), the others below. */
  ghost predicate SineOfOne(s: real) {
    forall k: nat :: if k % 2 == 1 then s <= SineSum(k) else SineSum(k) <= s
  }

  ghost predicate CosineOfOne(c: real) {
    forall k: nat :: if k % 2 == 1 then c <= CosineSum(k) else CosineSum(k) <= c
  }

  /** The addition theorem: sine and cosine of a sum, from those of its terms. */
  function Sum(u: real, v: real, s: real, c: real): (real, real) {
    (u * c + v * s, v * c - u * s)
  }

  /** The sine and the cosine of n, from those of 1. */
  function Angle(n: nat, s: real, c: real): (real, real) {
    if n == 0 then (0.0, 1.0) else
    var (u, v) := Angle(n - 1, s, c);
    Sum(u, v, s, c)
  }

  function Sine(n: nat, s: real, c: real): real {
    Angle(n, s, c).0
  }

  function Abs(x: real): real {
    if x < 0.0 then -x else x
  }

  // Fixed-point numbers with 128 binary digits

  const ONE: int := 0x100000000000000000000000000000000
  const UNIT: real := ONE as real

  const SINE_OF_ONE: int := 0xD76AA47848677020C6E9E909C50F3C33

  const COSINE_OF_ONE: int := 0x8A51407DA8345C91C2466D976871BD2A

  /** How far the fixed-point sines are off at most, in units of the last digit. */
  const ERROR: int := 0x80000000000000000

  function Sines0(): (t: seq<int>)
    ensures |t| == 17
  {
    [
      0x0, 0xD76AA47848677020C6E9E909C50F3C33, 0xE8C7B7568DA22EFD5C240C4004E4DDCB,
      0x242070DB6DAAB69E3902E84683150696, -0xC1BDCEEEE0F5738674C02AD072286C9E, -0xF57C0FAF04C999135789F2AB1DE2FD1C,
      -0x4787C62AC28B00E989105113D288512E, 0xA83046136850421DD444208FD7789680, 0xFD469501467BD74FB15853828466F0A7,
      0x698098D830BE42487274A8291C67AA40, -0x8B44F7AF9A7A92CE7FB22BE024E20009, -0xFFFF5BB1749F56AD6387C28327E3CE80,
      -0x895CD7BEBB2D2A4E0F2853FA36D7529A, 0x6B90112207141869F4A73ECE8A8D7C05, 0xFD987193E2F224EA5BB0EE037BC3014C,
      0xA679438E761742E95C9A4E9399953772, -0x49B408217C83DF90508B20B008B36EB6
    ]
  }

  function Sines1(): (t: seq<int>)
    ensures |t| == 17
  {
    [
      -0x49B408217C83DF90508B20B008B36EB6, -0xF61E256214415B768A021D600D76425D, -0xC040B34098F1339DABD109367EF9E51E,
      0x265E5A51EB099D08E4BABCC6307733EC, 0xE9B6C7AAE9E6FF24AFC0510A4786FDD8, 0xD62F105D86BF656AFCD82F211A74622B,
      -0x2441453EDD73E7ABED1D0EFCABEAB5C, -0xD8A1E68123E80FD8AD1E71E4B30D2AB4, -0xE7D3FBC8C8A074802CF40DD3544DABD2,
      -0x21E1CDE63D0139ED8F4376DEB8EAEB5F, 0xC33707D6192C1B727F314F991B611133, 0xF4D50D872DD17EEB0BECDCFB3A8B5159,
      0x455A14ED1453563F922CC06D843458B0, -0xA9E3E905364F354B0641AB715994376F, -0xFCEFA3F8E481E55D994FB58C1A2B2CFF,
      -0x676F02D903F202FEB00C68EC9052ECA5, 0x8D2A4C8A132B2D72B25F0B53450236F9
    ]
  }

  function Sines2(): (t: seq<int>)
    ensures |t| == 17
  {
    [
      0x8D2A4C8A132B2D72B25F0B53450236F9, 0xFFFA39420B11BD78E243ABDB19026899, 0x8771F681C3ED06027E9CC568B2AF5654,
      -0x6D9D6122332F9E85EFFCF62C7F80BAA6, -0xFDE5380C670E1CBD4B69E3C255CDF666, -0xA4BEEA447F487554F2DB8A35B813B763,
      0x4BDECFA91E6A73AD08D1086736A9FB56, 0xF6BB4B6020374DB6811846FDE07024D8, 0xBEBFBC7013F7FC8A62E1C0B33D1C5E25,
      -0x289B7EC6EBA38FE95293548056054578, -0xEAA127FA607F68357E3B0E29D788F451, -0xD4EF30853A8897721BABC0A015027DCB,
      0x4881D05676C1046351BF69EAA794E07, 0xD9D4D039ECD8170700E3E757F8DA4C44, 0xE6DB99E510C58592E2920CA41DD6838B,
      0x1FA27CF8DAF6F636EAD9B588B01998B5, -0xC4AC5665627C066C59F19BF8B6F2CB76
    ]
  }

  function Sines3(): (t: seq<int>)
    ensures |t| == 17
  {
    [
      -0xC4AC5665627C066C59F19BF8B6F2CB76, -0xF4292244133EB583FAFE816601E97C57, -0x432AFF97F37F2151D2E56B1D1AC85724,
      0xAB9423A71284117EA9599873E5AEAA37, 0xFC93A0392526353B3161DBADC7EF85D0, 0x655B59C3B1E2C1620AFF457533E52454,
      -0x8F0CCC922E3E4CF7A0895DBFFC226098, -0xFFEFF47D95035ED118D5683DF37F05FF, -0x85845DD128C8D20113DC42630841AA0A,
      0x6FA87E4F750E8134FD18E9F169832E31, 0xFE2CE6E09DB26F9764138D791967CA09, 0xA3014314C866594E617751AEB25BB42A,
      -0x4E0811A11B83099A70468E546A95D074, -0xF7537E82453F50849ED120CBA4358105, -0xBD3AF235F1627BF0CDAB28308E18C72D,
      0x2AD7D2BB99881A808DBF14868D14AFDD, 0xEB86D391860EC3DBE6B444B1DA027F99
    ]
  }

  function Cosines0(): (t: seq<int>)
    ensures |t| == 17
  {
    [
      0x100000000000000000000000000000000, 0x8A51407DA8345C91C2466D976871BD2A, -0x6A88995D4DC81290CCBE2B2EDCAC35DA,
      -0xFD7025F42F2E9307DFF82FDF6A7053EB, -0xA7553036D926062336D0E16E3DD51599, 0x489E15C1AD2B654F99F75A35EE5FA3CE,
      0xF5CDB84BC117ABD74F1E700074A95215, 0xC0FFBCF6C900BAAFBD68C5A99D54CE8C, -0x253F7D7EC65F271EC91F976AFBDCDA0C,
      -0xE93FD53530CB5B8268BB2E8949AAA7AB, -0xD6CD64486358F904F7E2A0B9994E4C3C, 0x1220AE41EE2FDF5FC5E106E5EFCC6E6,
      0xD806D0235B2F15A0219BBC9EAC6556C4, 0xE84E6EA93065B972C93B83E796D12094, 0x230135D85941D937074718A5364C0834,
      -0xC27AE834E5279535596857A485E9C754, -0xF5292BF4B17B9EB61A3FF42C134444B1
    ]
  }

  function Cosines1(): (t: seq<int>)
    ensures |t| == 17
  {
    [
      -0xF5292BF4B17B9EB61A3FF42C134444B1, -0x46711AC1FD639B8C54E4935C78B1BA89, 0xA90A840AE9237DD4213821F1A2D5C7A9,
      0xFD1BBEF08412C2B81854B959C7787FE9, 0x687810E592A0FDD15713934C5FF06AE6, -0x8C37FC1BB9BACB2EA76B817AB5BF7E6C,
      -0xFFFD6EC6A566D00FB595506DB7664855, -0x8867BEAC8F93925E43C2C84723AA7879, 0x6C96FED4298267839D6E080F4FEE7751,
      0xFDBF77ACA827F8C59393B6A0FFE8B720, 0xA59C81348D4F670AD3049797BD94A933, -0x4AC99BE5677B548675D31A6669252F14,
      -0xF66D568AC12800967ECCA1B940BEA4F5, -0xBF80B2C18A723BB945719ECD5A4721AA, 0x277D05E4A0B4A4496C0106252861A488,
      0xEA2C8E1F0950FFDCF280D06731069E76, 0xD58FA982EF4729C7752D6DEB9D3C19BF
    ]
  }

  function Cosines2(): (t: seq<int>)
    ensures |t| == 17
  {
    [
      0xD58FA982EF4729C7752D6DEB9D3C19BF, -0x3661ADB1ECBEEFD0D9B2B6565449470, -0xD93BE6CA8EBFB50F5231F527B5DD2EB7,
      -0xE7585F5284A53B11578C22B6264A634F, -0x20C23A7606735868E56E280014D6270D, 0xC3F22CE1010C5CF2C4C9EE9ED0492507,
      0xF47FB4D27465ADB1668C9F677C8EC1F8, 0x4442B612320A5C68CE2BD1523EDACE06, -0xAABC73EB410C75485A84579D2CBA0EB0,
      -0xFCC244530566F92E853D3C9F59C78D99, -0x66657006C15695B26D58858FBFBBC0BB, 0x8E1BE7C39B0D796F6FB12C7D8DDACA07,
      0xFFF5BB27C42A1FFE5702D266EC035897, 0x867B8079D781F535F732305AE51A12D2, -0x6EA336BB55262497881F6D40AC60BDB1,
      -0xFE09B282A9FF8E781F6741F1BDD8C970, -0xA3E07FDABD5F4348319E0C9230DA2A70
    ]
  }

  function Cosines3(): (t: seq<int>)
    ensures |t| == 17
  {
    [
      -0xA3E07FDABD5F4348319E0C9230DA2A70, 0x4CF3A208CCE517D22333374B253C84A7, 0xF708037E1FE7CC4693ED45AEDFF6552F,
      0xBDFDD143E7830CB64D16DA230D003B43, -0x29B9C389112AD665755F239536DF97D8, -0xEB1494A742C477AFE963868D59DB6F7A,
      -0xD44DA6326601352BC7D0D524C1A5139B, 0x5AA195E82FC5A299C7E192149291876, 0xDA6CA20AF545C45ADA38AF4E175DBDBD,
      0xE65DAC209685BBCC05FFC45A660C8027, 0x1E8296E015E53C662A2013BDDC0D6611, -0xC5658374460D78B1A56A01BE686A1861,
      -0xF3D1564B2B429626F8A4D29A13523462, -0x4212F2E566220AFEBFF5566301C40939, 0xAC6AF723CD337361FA2972D8BCB8E09D,
      0xFC63B7E7229F8A081FF79245BB8ED0CA, 0x6450C1656563BFD4DDD0797CFCC76C87
    ]
  }

  function FixedSine(n: nat): int
    requires n <= 64
  {
    if n <= 16 then Sines0()[n] else if n <= 32 then Sines1()[n - 16] else if n <= 48 then Sines2()[n - 32]
    else Sines3()[n - 48]
  }

  function FixedCosine(n: nat): int
    requires n <= 64
  {
    if n <= 16 then Cosines0()[n] else if n <= 32 then Cosines1()[n - 16] else if n <= 48 then Cosines2()[n - 32]
    else Cosines3()[n - 48]
  }

  /** Fixed-point numbers at most the given distance from a number in units of the last digit. */
  predicate Close(x: real, fixed: int, error: real) {
    -error <= x - fixed as real <= error
  }

  /** From the numbers for n to those for n + 1, by the addition theorem, off by two units at most. */
  predicate Adds(sine: int, cosine: int, nextSine: int, nextCosine: int) {
    && -ONE <= sine <= ONE && -ONE <= cosine <= ONE
    && -2 * ONE <= nextSine * ONE - (sine * COSINE_OF_ONE + cosine * SINE_OF_ONE) <= 2 * ONE
    && -2 * ONE <= nextCosine * ONE - (cosine * COSINE_OF_ONE - sine * SINE_OF_ONE) <= 2 * ONE
  }

  lemma Adds0(j: nat)
    requires j < 16
    ensures Adds(Sines0()[j], Cosines0()[j], Sines0()[j + 1], Cosines0()[j + 1])
  {
  }

  lemma Entries0(j: nat)
    requires j < 16
    ensures Agrees(Md5.T0()[j], Sines0()[j + 1])
  {
  }

  lemma Adds1(j: nat)
    requires j < 16
    ensures Adds(Sines1()[j], Cosines1()[j], Sines1()[j + 1], Cosines1()[j + 1])
  {
  }

  lemma Entries1(j: nat)
    requires j < 16
    ensures Agrees(Md5.T1()[j], Sines1()[j + 1])
  {
  }

  lemma Adds2(j: nat)
    requires j < 16
    ensures Adds(Sines2()[j], Cosines2()[j], Sines2()[j + 1], Cosines2()[j + 1])
  {
  }

  lemma Entries2(j: nat)
    requires j < 16
    ensures Agrees(Md5.T2()[j], Sines2()[j + 1])
  {
  }

  lemma Adds3(j: nat)
    requires j < 16
    ensures Adds(Sines3()[j], Cosines3()[j], Sines3()[j + 1], Cosines3()[j + 1])
  {
  }

  lemma Entries3(j: nat)
    requires j < 16
    ensures Agrees(Md5.T3()[j], Sines3()[j + 1])
  {
  }

  /** The table entry is the whole part of the fixed-point sine, whatever its error. */
  predicate Agrees(t: nat, sine: int) {
    var magnitude := if sine < 0 then -sine else sine;
    && t * ONE + ERROR * 0x1_0000_0000 <= magnitude * 0x1_0000_0000
    && magnitude * 0x1_0000_0000 + ERROR * 0x1_0000_0000 < (t + 1) * ONE
  }

  // Errors

  lemma Product(x: real, y: real, a: real, b: real)
    requires -a <= x <= a && -b <= y <= b
    ensures -(a * b) <= x * y <= a * b
  {
    assert (a - x) * (b + y) >= 0.0 && (a + x) * (b - y) >= 0.0;
    assert (a - x) * (b - y) >= 0.0 && (a + x) * (b + y) >= 0.0;
  }

  /** A product of two close numbers. */
  lemma ProductClose(u: real, x: real, fu: int, fx: int, e: real) returns (p: real)
    requires Close(u, fu, e) && Close(x, fx, 1.0) && -ONE <= fu <= ONE
    ensures p == u * x - (fu * fx) as real
    ensures var bound := e * (Magnitude(fx) as real + 1.0) + UNIT;
            -bound <= p <= bound
  {
    p := u * x - (fu * fx) as real;
    var m := Magnitude(fx) as real + 1.0;
    Product(u - fu as real, x, e, m);
    Product(fu as real, x - fx as real, UNIT, 1.0);
    assert u * x == (u - fu as real) * x + fu as real * (x - fx as real) + fu as real * fx as real;
    assert (fu * fx) as real == fu as real * fx as real;
  }

  function Magnitude(x: int): nat {
    if x < 0 then -x else x
  }

  /** A sum of two such products, divided by the unit. */
  lemma SumClose(u: real, v: real, x: real, y: real, fu: int, fv: int, fx: int, fy: int, w: real, next: int, e: real)
    requires Close(u, fu, e) && Close(v, fv, e) && Close(x, fx, 1.0) && Close(y, fy, 1.0) && e >= 0.0
    requires -ONE <= fu <= ONE && -ONE <= fv <= ONE && Magnitude(fx) + Magnitude(fy) + 2 <= 2 * ONE
    requires -2 * ONE <= next * ONE - (fu * fx + fv * fy) <= 2 * ONE
    requires w * UNIT == u * x + v * y
    ensures Close(w, next, 2.0 * e + 4.0)
  {
    var p := ProductClose(u, x, fu, fx, e);
    var q := ProductClose(v, y, fv, fy, e);
    FromErrors(p, q, u * x, v * y, fu * fx, fv * fy, w, next, e, Magnitude(fx), Magnitude(fy));
  }

  /** The products appear as numbers a and b, near fa and fb. */
  lemma FromErrors(p: real, q: real, a: real, b: real, fa: int, fb: int, w: real, next: int, e: real, m: nat, n: nat)
    requires p == a - fa as real && q == b - fb as real && w * UNIT == a + b
    requires -2 * ONE <= next * ONE - (fa + fb) <= 2 * ONE && m + n + 2 <= 2 * ONE && e >= 0.0
    requires -(e * (m as real + 1.0) + UNIT) <= p <= e * (m as real + 1.0) + UNIT
    requires -(e * (n as real + 1.0) + UNIT) <= q <= e * (n as real + 1.0) + UNIT
    ensures Close(w, next, 2.0 * e + 4.0)
  {
    var r := next * ONE - (fa + fb);
    Difference(w, next, a, b, fa, fb, r);
    MagnitudesFit(m, n);
    ErrorsAdd(p, q, r as real, w - next as real, e, m as real + 1.0, n as real + 1.0, UNIT);
  }

  lemma MagnitudesFit(x: nat, y: nat)
    requires x + y + 2 <= 2 * ONE
    ensures (x as real + 1.0) + (y as real + 1.0) <= 2.0 * UNIT
  {
  }

  lemma Difference(w: real, next: int, a: real, b: real, fa: int, fb: int, r: int)
    requires w * UNIT == a + b && r == next * ONE - (fa + fb)
    ensures (w - next as real) * UNIT == (a - fa as real) + (b - fb as real) - r as real
  {
  }

  lemma ErrorsAdd(p: real, q: real, r: real, d: real, e: real, m: real, n: real, unit: real)
    requires -(e * m + unit) <= p <= e * m + unit && -(e * n + unit) <= q <= e * n + unit
    requires -2.0 * unit <= r <= 2.0 * unit && d * unit == p + q - r
    requires e >= 0.0 && m >= 0.0 && n >= 0.0 && m + n <= 2.0 * unit && unit > 0.0
    ensures -(2.0 * e + 4.0) <= d <= 2.0 * e + 4.0
  {
    Factors(e, m, n, unit);
    Linear(p, q, r, e * m, e * n, d * unit, unit, e * (2.0 * unit));
    Quotient(d, 2.0 * e + 4.0, unit, d * unit, e * (2.0 * unit) + 4.0 * unit);
  }

  lemma Factors(e: real, m: real, n: real, unit: real)
    requires e >= 0.0 && m >= 0.0 && n >= 0.0 && m + n <= 2.0 * unit
    ensures e * m + e * n <= e * (2.0 * unit)
    ensures (2.0 * e + 4.0) * unit == e * (2.0 * unit) + 4.0 * unit
  {
    assert e * m + e * n == e * (m + n);
    Product(e, m + n, e, 2.0 * unit);
  }

  lemma Linear(p: real, q: real, r: real, em: real, en: real, sum: real, unit: real, most: real)
    requires -(em + unit) <= p <= em + unit && -(en + unit) <= q <= en + unit
    requires -2.0 * unit <= r <= 2.0 * unit && sum == p + q - r && em + en <= most
    ensures -(most + 4.0 * unit) <= sum <= most + 4.0 * unit
  {
  }

  lemma Quotient(d: real, bound: real, unit: real, product: real, limit: real)
    requires unit > 0.0 && product == d * unit && limit == bound * unit && -limit <= product <= limit
    ensures -bound <= d <= bound
  {
    if d > bound {
      Grows(bound, d, unit);
    } else if d < -bound {
      Grows(d, -bound, unit);
      Negated(bound, unit);
    }
  }

  lemma Grows(a: real, b: real, unit: real)
    requires a < b && unit > 0.0
    ensures a * unit < b * unit
  {
  }

  lemma Negated(d: real, unit: real)
    ensures -d * unit == -(d * unit)
  {
  }

  /** How far the fixed-point numbers for n may be off. */
  function Off(n: nat): real {
    if n == 0 then 0.0 else 2.0 * Off(n - 1) + 4.0
  }

  lemma {:induction false} OffIs(n: nat)
    ensures 0.0 <= Off(n) == 4.0 * Pow2(n) as real - 4.0
    decreases n
  {
    if n > 0 {
      OffIs(n - 1);
    }
  }

  lemma AddsAll(n: nat)
    requires n < 64
    ensures Adds(FixedSine(n), FixedCosine(n), FixedSine(n + 1), FixedCosine(n + 1))
  {
    if n < 16 {
      Adds0(n);
    } else if n < 32 {
      AddsSecond(n);
    } else if n < 48 {
      AddsThird(n);
    } else {
      AddsFourth(n);
    }
  }

  lemma AddsSecond(n: nat)
    requires 16 <= n < 32
    ensures Adds(FixedSine(n), FixedCosine(n), FixedSine(n + 1), FixedCosine(n + 1))
  {
    assert Sines0()[16] == Sines1()[0] && Cosines0()[16] == Cosines1()[0];
    Adds1(n - 16);
  }

  lemma AddsThird(n: nat)
    requires 32 <= n < 48
    ensures Adds(FixedSine(n), FixedCosine(n), FixedSine(n + 1), FixedCosine(n + 1))
  {
    assert Sines1()[16] == Sines2()[0] && Cosines1()[16] == Cosines2()[0];
    Adds2(n - 32);
  }

  lemma AddsFourth(n: nat)
    requires 48 <= n < 64
    ensures Adds(FixedSine(n), FixedCosine(n), FixedSine(n + 1), FixedCosine(n + 1))
  {
    assert Sines2()[16] == Sines3()[0] && Cosines2()[16] == Cosines3()[0];
    Adds3(n - 48);
  }

  /** The numbers close to a fixed-point number. */
  ghost function Near(fixed: int, error: real): iset<real> {
    iset x: real | IsNear(x, fixed, error)
  }

  predicate IsNear(x: real, fixed: int, error: real) {
    Close(x * UNIT, fixed, error)
  }

  /** The numbers for a sum with 1, from those for the other term. */
  lemma SumIsNear(u: real, v: real, s: real, c: real, sine: int, cosine: int, nextSine: int, nextCosine: int, e: real)
    requires u in Near(sine, e) && v in Near(cosine, e) && e >= 0.0
    requires s in Near(SINE_OF_ONE, 1.0) && c in Near(COSINE_OF_ONE, 1.0)
    requires Adds(sine, cosine, nextSine, nextCosine)
    ensures Sum(u, v, s, c).0 in Near(nextSine, 2.0 * e + 4.0)
    ensures Sum(u, v, s, c).1 in Near(nextCosine, 2.0 * e + 4.0)
  {
    NextSine(u, v, s, c, sine, cosine, nextSine, nextCosine, e);
    NextCosine(u, v, s, c, sine, cosine, nextSine, nextCosine, e);
  }

  lemma NextSine(u: real, v: real, s: real, c: real, sine: int, cosine: int, nextSine: int, nextCosine: int, e: real)
    requires u in Near(sine, e) && v in Near(cosine, e) && e >= 0.0
    requires s in Near(SINE_OF_ONE, 1.0) && c in Near(COSINE_OF_ONE, 1.0)
    requires Adds(sine, cosine, nextSine, nextCosine)
    ensures u * c + v * s in Near(nextSine, 2.0 * e + 4.0)
  {
    var u', v' := Units(u, v, sine, cosine, e);
    var s', c' := Units(s, c, SINE_OF_ONE, COSINE_OF_ONE, 1.0);
    var w := SineInUnits(u, v, s, c, u', v', s', c', nextSine, 2.0 * e + 4.0);
    SumClose(u', v', c', s', sine, cosine, COSINE_OF_ONE, SINE_OF_ONE, w, nextSine, e);
  }

  lemma NextCosine(u: real, v: real, s: real, c: real, sine: int, cosine: int, nextSine: int, nextCosine: int, e: real)
    requires u in Near(sine, e) && v in Near(cosine, e) && e >= 0.0
    requires s in Near(SINE_OF_ONE, 1.0) && c in Near(COSINE_OF_ONE, 1.0)
    requires Adds(sine, cosine, nextSine, nextCosine)
    ensures v * c - u * s in Near(nextCosine, 2.0 * e + 4.0)
  {
    var u', v' := Units(u, v, sine, cosine, e);
    var s', c' := Units(s, c, SINE_OF_ONE, COSINE_OF_ONE, 1.0);
    var w, minus := CosineInUnits(u, v, s, c, u', v', s', c', nextCosine, 2.0 * e + 4.0);
    SumClose(v', u', c', minus, cosine, sine, COSINE_OF_ONE, -SINE_OF_ONE, w, nextCosine, e);
  }

  /** The number in units of the last digit. */
  predicate IsScaled(x: real, y: real) {
    y == x * UNIT
  }

  lemma Units(x: real, y: real, fixedX: int, fixedY: int, e: real) returns (x': real, y': real)
    requires x in Near(fixedX, e) && y in Near(fixedY, e)
    ensures IsScaled(x, x') && IsScaled(y, y') && Close(x', fixedX, e) && Close(y', fixedY, e)
  {
    assert IsNear(x, fixedX, e) && IsNear(y, fixedY, e);
    x', y' := x * UNIT, y * UNIT;
  }

  lemma SineInUnits(u: real, v: real, s: real, c: real, u': real, v': real, s': real, c': real, next: int, bound: real)
    returns (w: real)
    requires IsScaled(u, u') && IsScaled(v, v') && IsScaled(s, s') && IsScaled(c, c')
    ensures w * UNIT == u' * c' + v' * s'
    ensures Close(w, next, bound) ==> u * c + v * s in Near(next, bound)
  {
    w := (u * c + v * s) * UNIT;
    Scaled(u, c, v, s, UNIT);
    assert IsNear(u * c + v * s, next, bound) == Close(w, next, bound);
  }

  lemma CosineInUnits(u: real, v: real, s: real, c: real, u': real, v': real, s': real, c': real, next: int,
      bound: real)
    returns (w: real, minus: real)
    requires IsScaled(u, u') && IsScaled(v, v') && IsScaled(s, s') && IsScaled(c, c')
    ensures minus == -s' && w * UNIT == v' * c' + u' * minus
    ensures Close(w, next, bound) ==> v * c - u * s in Near(next, bound)
  {
    minus := -s';
    w := (v * c - u * s) * UNIT;
    ScaledDifference(v, c, u, s, UNIT, minus);
    assert IsNear(v * c - u * s, next, bound) == Close(w, next, bound);
  }

  lemma ScaledDifference(v: real, c: real, u: real, s: real, unit: real, minus: real)
    requires minus == -(s * unit)
    ensures (v * c - u * s) * unit * unit == (v * unit) * (c * unit) + (u * unit) * minus
  {
    assert (v * unit) * (c * unit) == v * c * unit * unit;
    assert (u * unit) * (s * unit) == u * s * unit * unit;
    assert (u * unit) * minus == -((u * unit) * (s * unit));
  }

  /** The fixed-point numbers are close to the sines and cosines. */
  lemma {:induction false} FixedIsClose(n: nat, s: real, c: real) returns (sine: int, cosine: int)
    requires n <= 64 && s in Near(SINE_OF_ONE, 1.0) && c in Near(COSINE_OF_ONE, 1.0)
    ensures sine == FixedSine(n) && cosine == FixedCosine(n)
    ensures Angle(n, s, c).0 in Near(sine, Off(n)) && Angle(n, s, c).1 in Near(cosine, Off(n))
    decreases n
  {
    sine, cosine := FixedSine(n), FixedCosine(n);
    if n == 0 {
      AtZero();
    } else {
      var before, beside := FixedIsClose(n - 1, s, c);
      AddsAll(n - 1);
      OffIs(n - 1);
      SumIsNear(Angle(n - 1, s, c).0, Angle(n - 1, s, c).1, s, c, before, beside, sine, cosine, Off(n - 1));
    }
  }

  lemma AtZero()
    ensures 0.0 in Near(FixedSine(0), 0.0) && 1.0 in Near(FixedCosine(0), 0.0)
  {
    assert IsNear(0.0, 0, 0.0) && IsNear(1.0, ONE, 0.0);
  }

  lemma Scaled(u: real, c: real, v: real, s: real, unit: real)
    ensures (u * c + v * s) * unit * unit == (u * unit) * (c * unit) + (v * unit) * (s * unit)
  {
    assert (u * unit) * (c * unit) == u * c * unit * unit;
    assert (v * unit) * (s * unit) == v * s * unit * unit;
  }

  /** Between the sums of 17 and 18 terms there is less than a unit. */
  lemma FixedBounds(s: real, c: real, k: nat)
    requires SineOfOne(s) && CosineOfOne(c) && k == 18
    ensures s in Near(SINE_OF_ONE, 1.0) && c in Near(COSINE_OF_ONE, 1.0)
  {
    SineSums(k);
    CosineSums(k);
    assert SineSum(k) <= s <= SineSum(k - 1) && CosineSum(k) <= c <= CosineSum(k - 1);
    SineIsNear(s);
    CosineIsNear(c);
  }

  lemma SineIsNear(s: real)
    requires 8695044195440662442699982866274228962149.0 / 10333147966386144929666651337523200000000.0 <= s
    requires s <= 7306759828101397010672254509474141985.0 / 8683317618811886495518194401280000000.0
    ensures s in Near(SINE_OF_ONE, 1.0)
  {
    assert IsNear(s, SINE_OF_ONE, 1.0);
  }

  lemma CosineIsNear(c: real)
    requires 159514962089003222313242436031601809697.0 / 295232799039604140847618609643520000000.0 <= c
    requires c <= 142170197940288076928023561525491809.0 / 263130836933693530167218012160000000.0
    ensures c in Near(COSINE_OF_ONE, 1.0)
  {
    assert IsNear(c, COSINE_OF_ONE, 1.0);
  }

  /** The sums of 17 and 18 terms, six terms at a time. */
  lemma SineSums(k: nat)
    requires k == 18
    ensures SineSum(k - 1) == 7306759828101397010672254509474141985.0 / 8683317618811886495518194401280000000.0
    ensures SineSum(k) == 8695044195440662442699982866274228962149.0 / 10333147966386144929666651337523200000000.0
  {
    SineSum6(k - 12);
    SineSum12(k - 6);
    SineSum18(k);
  }

  lemma SineSum6(k: nat)
    requires k == 6
    ensures SineTerm(k) == 1.0 / 39916800.0
    ensures SineSum(k) == 33588829.0 / 39916800.0
  {
    assert SineTerm(k - 5) == 1.0 / 1.0;
    assert SineTerm(k - 4) == 1.0 / 6.0;
    assert SineTerm(k - 3) == 1.0 / 120.0;
    assert SineTerm(k - 2) == 1.0 / 5040.0;
    assert SineTerm(k - 1) == 1.0 / 362880.0;
    assert SineTerm(k) == 1.0 / 39916800.0;
    assert SineSum(k - 5) == 1.0 / 1.0;
    assert SineSum(k - 4) == 5.0 / 6.0;
    assert SineSum(k - 3) == 101.0 / 120.0;
    assert SineSum(k - 2) == 4241.0 / 5040.0;
    assert SineSum(k - 1) == 305353.0 / 362880.0;
    assert SineSum(k) == 33588829.0 / 39916800.0;
  }

  lemma SineSum12(k: nat)
    requires k == 12
    requires SineTerm(k - 6) == 1.0 / 39916800.0
    requires SineSum(k - 6) == 33588829.0 / 39916800.0
    ensures SineTerm(k) == 1.0 / 25852016738884976640000.0
    ensures SineSum(k) == 21753721984539766369345.0 / 25852016738884976640000.0
  {
    assert SineTerm(k - 5) == 1.0 / 6227020800.0;
    assert SineTerm(k - 4) == 1.0 / 1307674368000.0;
    assert SineTerm(k - 3) == 1.0 / 355687428096000.0;
    assert SineTerm(k - 2) == 1.0 / 121645100408832000.0;
    assert SineTerm(k - 1) == 1.0 / 51090942171709440000.0;
    assert SineTerm(k) == 1.0 / 25852016738884976640000.0;
    assert SineSum(k - 5) == 5239857325.0 / 6227020800.0;
    assert SineSum(k - 4) == 1100370038249.0 / 1307674368000.0;
    assert SineSum(k - 3) == 299300650403729.0 / 355687428096000.0;
    assert SineSum(k - 2) == 102360822438075317.0 / 121645100408832000.0;
    assert SineSum(k - 1) == 42991545423991633141.0 / 51090942171709440000.0;
    assert SineSum(k) == 21753721984539766369345.0 / 25852016738884976640000.0;
  }

  lemma SineSum18(k: nat)
    requires k == 18
    requires SineTerm(k - 6) == 1.0 / 25852016738884976640000.0
    requires SineSum(k - 6) == 21753721984539766369345.0 / 25852016738884976640000.0
    ensures SineTerm(k) == 1.0 / 10333147966386144929666651337523200000000.0
    ensures SineSum(k - 1) == 7306759828101397010672254509474141985.0 / 8683317618811886495518194401280000000.0
    ensures SineSum(k) == 8695044195440662442699982866274228962149.0 / 10333147966386144929666651337523200000000.0
  {
    assert SineTerm(k - 5) == 1.0 / 15511210043330985984000000.0;
    assert SineTerm(k - 4) == 1.0 / 10888869450418352160768000000.0;
    assert SineTerm(k - 3) == 1.0 / 8841761993739701954543616000000.0;
    assert SineTerm(k - 2) == 1.0 / 8222838654177922817725562880000000.0;
    assert SineTerm(k - 1) == 1.0 / 8683317618811886495518194401280000000.0;
    assert SineTerm(k) == 1.0 / 10333147966386144929666651337523200000000.0;
    assert SineSum(k - 5) == 13052233190723859821607001.0 / 15511210043330985984000000.0;
    assert SineSum(k - 4) == 9162667699888149594768114701.0 / 10888869450418352160768000000.0;
    assert SineSum(k - 3) == 7440086172309177470951709137213.0 / 8841761993739701954543616000000.0;
    assert SineSum(k - 2) == 6919280140247535047985089497608089.0 / 8222838654177922817725562880000000.0;
    assert SineSum(k - 1) == 7306759828101397010672254509474141985.0 / 8683317618811886495518194401280000000.0;
    assert SineSum(k) == 8695044195440662442699982866274228962149.0 / 10333147966386144929666651337523200000000.0;
  }

  /** The sums of 17 and 18 terms, six terms at a time. */
  lemma CosineSums(k: nat)
    requires k == 18
    ensures CosineSum(k - 1) == 142170197940288076928023561525491809.0 / 263130836933693530167218012160000000.0
    ensures CosineSum(k) == 159514962089003222313242436031601809697.0 / 295232799039604140847618609643520000000.0
  {
    CosineSum6(k - 12);
    CosineSum12(k - 6);
    CosineSum18(k);
  }

  lemma CosineSum6(k: nat)
    requires k == 6
    ensures CosineTerm(k) == 1.0 / 3628800.0
    ensures CosineSum(k) == 1960649.0 / 3628800.0
  {
    assert CosineTerm(k - 5) == 1.0 / 1.0;
    assert CosineTerm(k - 4) == 1.0 / 2.0;
    assert CosineTerm(k - 3) == 1.0 / 24.0;
    assert CosineTerm(k - 2) == 1.0 / 720.0;
    assert CosineTerm(k - 1) == 1.0 / 40320.0;
    assert CosineTerm(k) == 1.0 / 3628800.0;
    assert CosineSum(k - 5) == 1.0 / 1.0;
    assert CosineSum(k - 4) == 1.0 / 2.0;
    assert CosineSum(k - 3) == 13.0 / 24.0;
    assert CosineSum(k - 2) == 389.0 / 720.0;
    assert CosineSum(k - 1) == 21785.0 / 40320.0;
    assert CosineSum(k) == 1960649.0 / 3628800.0;
  }

  lemma CosineSum12(k: nat)
    requires k == 12
    requires CosineTerm(k - 6) == 1.0 / 3628800.0
    requires CosineSum(k - 6) == 1960649.0 / 3628800.0
    ensures CosineTerm(k) == 1.0 / 1124000727777607680000.0
    ensures CosineSum(k) == 607300185015708631061.0 / 1124000727777607680000.0
  {
    assert CosineTerm(k - 5) == 1.0 / 479001600.0;
    assert CosineTerm(k - 4) == 1.0 / 87178291200.0;
    assert CosineTerm(k - 3) == 1.0 / 20922789888000.0;
    assert CosineTerm(k - 2) == 1.0 / 6402373705728000.0;
    assert CosineTerm(k - 1) == 1.0 / 2432902008176640000.0;
    assert CosineTerm(k) == 1.0 / 1124000727777607680000.0;
    assert CosineSum(k - 5) == 258805669.0 / 479001600.0;
    assert CosineSum(k - 4) == 47102631757.0 / 87178291200.0;
    assert CosineSum(k - 3) == 11304631621681.0 / 20922789888000.0;
    assert CosineSum(k - 2) == 3459217276234385.0 / 6402373705728000.0;
    assert CosineSum(k - 1) == 1314502564969066301.0 / 2432902008176640000.0;
    assert CosineSum(k) == 607300185015708631061.0 / 1124000727777607680000.0;
  }

  lemma CosineSum18(k: nat)
    requires k == 18
    requires CosineTerm(k - 6) == 1.0 / 1124000727777607680000.0
    requires CosineSum(k - 6) == 607300185015708631061.0 / 1124000727777607680000.0
    ensures CosineTerm(k) == 1.0 / 295232799039604140847618609643520000000.0
    ensures CosineSum(k - 1) == 142170197940288076928023561525491809.0 / 263130836933693530167218012160000000.0
    ensures CosineSum(k) == 159514962089003222313242436031601809697.0 / 295232799039604140847618609643520000000.0
  {
    assert CosineTerm(k - 5) == 1.0 / 620448401733239439360000.0;
    assert CosineTerm(k - 4) == 1.0 / 403291461126605635584000000.0;
    assert CosineTerm(k - 3) == 1.0 / 304888344611713860501504000000.0;
    assert CosineTerm(k - 2) == 1.0 / 265252859812191058636308480000000.0;
    assert CosineTerm(k - 1) == 1.0 / 263130836933693530167218012160000000.0;
    assert CosineTerm(k) == 1.0 / 295232799039604140847618609643520000000.0;
    assert CosineSum(k - 5) == 335229702128671164345673.0 / 620448401733239439360000.0;
    assert CosineSum(k - 4) == 217899306383636256824687449.0 / 403291461126605635584000000.0;
    assert CosineSum(k - 3) == 164731875626029010159463711445.0 / 304888344611713860501504000000.0;
    assert CosineSum(k - 2) == 143316731794645238838733428957149.0 / 265252859812191058636308480000000.0;
    assert CosineSum(k - 1) == 142170197940288076928023561525491809.0 / 263130836933693530167218012160000000.0;
    assert CosineSum(k) == 159514962089003222313242436031601809697.0 / 295232799039604140847618609643520000000.0;
  }

  /** The table, in terms of the sines: a whole part, for any numbers that the series and the theorem allow. */
  lemma TableOfSines(i: nat, s: real, c: real)
    requires SineOfOne(s) && CosineOfOne(c) && 1 <= i <= 64
    ensures var t, magnitude := Md5.T()[i - 1], Abs(Sine(i, s, c));
            t as real <= 4294967296.0 * magnitude < (t + 1) as real
  {
    FixedBounds(s, c, 18);
    var sine, _ := FixedIsClose(i, s, c);
    OffAtMost(i);
    Entries(i);
    Entry(Md5.T()[i - 1], sine, Sine(i, s, c), Off(i));
  }

  lemma OffAtMost(n: nat)
    requires n <= 64
    ensures Off(n) <= ERROR as real
  {
    OffIs(n);
    Pow2Monotone(n, 64);
    TwoTo64();
  }

  lemma Entries(i: nat)
    requires 1 <= i <= 64
    ensures Agrees(Md5.T()[i - 1], FixedSine(i))
  {
    if i <= 16 {
      Entries0(i - 1);
    } else if i <= 32 {
      Entries1(i - 17);
    } else if i <= 48 {
      Entries2(i - 33);
    } else {
      Entries3(i - 49);
    }
  }

  lemma Entry(t: nat, fixed: int, sine: real, off: real)
    requires Agrees(t, fixed) && sine in Near(fixed, off) && off <= ERROR as real
    ensures t as real <= 4294967296.0 * Abs(sine) < (t + 1) as real
  {
    assert IsNear(sine, fixed, off);
  }
}
