/**
 * Device geometry: the corner radius of a sheet chosen from the screen's
 * longer side, and the padding that keeps an inner rounded corner
 * concentric with an outer one. Sizes are exact reals.
 */
module Device {
  function Max(a: real, b: real): (m: real)
    ensures m >= a && m >= b && (m == a || m == b)
  {
    if a >= b then a else b
  }

  /**
   * `getDeviceCornerRadius`: the longer screen side picks the radius; the
   * first threshold it reaches, from the top, wins.
   */
  function GetDeviceCornerRadius(screenWidth: real, screenHeight: real): (radius: int)
    ensures radius in {38, 40, 44, 47, 55}
  {
    var height := Max(screenWidth, screenHeight);
    if height >= 930.0 then 55
    else if height >= 920.0 then 47
    else if height >= 890.0 then 40
    else if height >= 850.0 then 55
    else if height >= 840.0 then 47
    else if height >= 810.0 then 44
    else 38
  }

  /** Portrait or landscape, the same screen gets the same radius. */
  lemma CornerRadiusSymmetric(w: real, h: real)
    ensures GetDeviceCornerRadius(w, h) == GetDeviceCornerRadius(h, w)
  {
    assert Max(w, h) == Max(h, w);
  }

  /** The radius as a table over bands of the longer side. */
  lemma CornerRadiusBands(w: real, h: real)
    ensures var m := Max(w, h); var r := GetDeviceCornerRadius(w, h);
      && (m >= 930.0 ==> r == 55)
      && (920.0 <= m < 930.0 ==> r == 47)
      && (890.0 <= m < 920.0 ==> r == 40)
      && (850.0 <= m < 890.0 ==> r == 55)
      && (840.0 <= m < 850.0 ==> r == 47)
      && (810.0 <= m < 840.0 ==> r == 44)
      && (m < 810.0 ==> r == 38)
  {
  }

  /** The screens the table is written for: 932, 926, 896, 852, 844 and 812 points tall. */
  lemma CornerRadiusExamples()
    ensures GetDeviceCornerRadius(430.0, 932.0) == 55
    ensures GetDeviceCornerRadius(428.0, 926.0) == 47
    ensures GetDeviceCornerRadius(414.0, 896.0) == 40
    ensures GetDeviceCornerRadius(393.0, 852.0) == 55
    ensures GetDeviceCornerRadius(390.0, 844.0) == 47
    ensures GetDeviceCornerRadius(375.0, 812.0) == 44
    ensures GetDeviceCornerRadius(375.0, 667.0) == 38
  {
  }

  /** `getConcentricPadding`: the padding that makes inner radius plus padding equal the outer radius. */
  function GetConcentricPadding(outerRadius: real, innerRadius: real): (padding: real)
    ensures innerRadius + padding == outerRadius
  {
    outerRadius - innerRadius
  }
}
