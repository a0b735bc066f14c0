/** The hostel lists of the profile form, from which a hosteller picks the hostel saved
    in their profile. */
module ProfileHostels {

  const GirlsHostels: seq<string> := [
    "Sister Nivedita Hostel (SNH)", "Kalpana Chawla Hostel (KCH)", "Virangana Lakshmibai Hostel (VLB)"]

  const BoysHostels: seq<string> := [
    "Bhaskaracharya Hostel (BCH)", "Sir C. V. Raman Hostel (CVR)", "Sir J.C. Bose Hostel (JCB)",
    "Varahmihir Hostel (VMH)", "Sir Vishveshwarya Hostel (VVS)", "Homi Jehangir Bhabha Hostel (HJB)",
    "Aryabhatt Hostel (ABH)", "Ramanujan Hostel (RMH)", "Dr. APJ Abdul Kalam Hostel (APJ)",
    "Type II Block 1,2,3,4&5 Hostel (Type-II)."]

  /** The hostels the profile form offers for a gender: the boys' list for "male", the
      girls' list for "female", none for anything else. */
  function HostelsFor(gender: string): (r: seq<string>)
    ensures r != [] <==> gender == "male" || gender == "female"
    ensures gender == "male" ==> r == BoysHostels
    ensures gender == "female" ==> r == GirlsHostels
  {
    if gender == "male" then BoysHostels
    else if gender == "female" then GirlsHostels
    else []
  }
}
