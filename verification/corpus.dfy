/** The constant data of the corpus generator, `SYMPTOM_MAP` and `TEMPLATES`,
    and the generator run over it. Each entry and template is its own
    constant so that its well-formedness (a label without surrounding white
    space, template text without braces) is checked on its own. */
module Corpus {
  import opened Wrappers
  import opened Dataset

  const HeadacheEntry := Entry("Headache", [
      "head hurts", "pounding head", "migraine", "headache", "my head is killing me",
      "throbbing in my head", "pain in my skull", "splitting headache", "dizzy head"])
  const FeverEntry := Entry("Fever", [
      "high temp", "fever", "burning up", "feeling hot", "chills", "temperature is high",
      "shivering", "hot forehead", "feverish"])
  const NauseaEntry := Entry("Nausea", [
      "feel sick", "want to vomit", "nausea", "queasy", "stomach upset",
      "feel like throwing up", "sick to my stomach", "urge to vomit"])
  const CoughEntry := Entry("Cough", [
      "coughing", "dry cough", "hacking cough", "coughing up phlegm", "bad cough",
      "can't stop coughing", "tickle in throat"])
  const FatigueEntry := Entry("Fatigue", [
      "tired", "exhausted", "no energy", "worn out", "fatigue", "feeling weak", "drained",
      "sleepy all the time", "lethargic"])
  const SoreThroatEntry := Entry("Sore Throat", [
      "throat hurts", "pain when swallowing", "sore throat", "scratchy throat",
      "throat is raw", "burning throat "])
  const ShortnessOfBreathEntry := Entry("Shortness of Breath", [
      "can't breathe", "short of breath", "hard to breathe", "gasping for air", "breathless",
      "winded easily", "chest feels tight"])
  const JointPainEntry := Entry("Joint Pain", [
      "knees hurt", "elbows ache", "joint pain", "stiff joints", "aching bones",
      "pain in my joints", "arthritis pain"])
  const SkinRashEntry := Entry("Skin Rash", [
      "itchy skin", "red spots", "rash", "hives", "skin breakout", "itchy bumps",
      "redness on skin"])
  const AbdominalPainEntry := Entry("Abdominal Pain", [
      "stomach ache", "belly pain", "abdominal pain", "tummy hurts", "cramps",
      "pain in my gut", "stomach cramps"])
  const BackPainEntry := Entry("Back Pain", [
      "back hurts", "lower back pain", "spine hurts", "stiff back", "backache",
      "pain in my back", "pulled a muscle in my back"])
  const ChestPainEntry := Entry("Chest Pain", [
      "chest hurts", "pain in chest", "tight chest", "pressure in chest", "heart hurts",
      "sharp pain in chest"])
  const DizzinessEntry := Entry("Dizziness", [
      "dizzy", "lightheaded", "room is spinning", "vertigo", "feeling faint", "unsteady"])
  const InsomniaEntry := Entry("Insomnia", [
      "can't sleep", "trouble sleeping", "staying awake", "insomnia", "haven't slept",
      "tossing and turning"])
  const AnxietyEntry := Entry("Anxiety", [
      "anxious", "nervous", "panicking", "panic attack", "worried sick", "stress",
      "feeling efficient"])
  const DepressionEntry := Entry("Depression", [
      "feeling sad", "depressed", "no motivation", "feeling down", "hopeless", "crying a lot"])
  const EaracheEntry := Entry("Earache", [
      "ear hurts", "pain in ear", "earache", "blocked ear", "ringing in ears"])
  const EyePainEntry := Entry("Eye Pain", [
      "eye hurts", "pain in eye", "blurry vision", "itchy eyes", "red eyes", "vision problems"])
  const ToothacheEntry := Entry("Toothache", [
      "tooth hurts", "toothache", "pain in tooth", "sensitive teeth", "gum pain"])
  const AcneEntry := Entry("Acne", [
      "pimples", "zits", "acne", "breakouts", "spots on face"])
  const AllergiesEntry := Entry("Allergies", [
      "sneezing", "runny nose", "allergies", "hay fever", "allergic reaction"])
  const DiarrheaEntry := Entry("Diarrhea", [
      "runny tummy", "diarrhea", "loose stools", "upset stomach", "frequent bathroom trips"])
  const ConstipationEntry := Entry("Constipation", [
      "constipated", "can't poop", "hard stool", "backed up", "constipation"])
  const BurnEntry := Entry("Burn", [
      "burned myself", "skin burn", "sunburn", "touched something hot", "minor burn"])
  const CutEntry := Entry("Cut", [
      "cut my finger", "bleeding", "cut myself", "scratch", "wound"])
  const NonMedicalEntry := Entry("Non-Medical", [
      "hello", "hi there", "how are you", "good morning", "what is your name",
      "tell me a joke", "i like pizza", "what is the weather", "who are you",
      "do you like cars", "i am happy", "goodbye", "thanks", "thank you", "cool", "nice",
      "okay", "random text", "testing"])

  /** `SYMPTOM_MAP`, in source order. */
  const SymptomMap: seq<Entry> := [
    HeadacheEntry, FeverEntry, NauseaEntry, CoughEntry, FatigueEntry, SoreThroatEntry,
    ShortnessOfBreathEntry, JointPainEntry, SkinRashEntry, AbdominalPainEntry, BackPainEntry,
    ChestPainEntry, DizzinessEntry, InsomniaEntry, AnxietyEntry, DepressionEntry, EaracheEntry,
    EyePainEntry, ToothacheEntry, AcneEntry, AllergiesEntry, DiarrheaEntry, ConstipationEntry,
    BurnEntry, CutEntry, NonMedicalEntry
  ]

  const Template0 := Template("", "")
  const Template1 := Template("I have ", "")
  const Template2 := Template("I am experiencing ", "")
  const Template3 := Template("I've been having ", "")
  const Template4 := Template("Suffering from ", "")
  const Template5 := Template("My problem is ", "")
  const Template6 := Template("It feels like ", "")
  const Template7 := Template("Lately I have ", "")
  const Template8 := Template("Complaining of ", "")
  const Template9 := Template("Dealing with ", "")
  const Template10 := Template("Severe ", "")
  const Template11 := Template("Mild ", "")
  const Template12 := Template("Chronic ", "")
  const Template13 := Template("Sudden ", "")
  const Template14 := Template("Help, I have ", "")
  const Template15 := Template("Doctor, I have ", "")
  const Template16 := Template("Can you help with ", "?")
  const Template17 := Template("I think I have ", "")
  const Template18 := Template("It started as a ", " but now it's worse")
  const Template19 := Template("Do you think ", " is serious?")
  const Template20 := Template("Suffering from ", " for 3 days")
  const Template21 := Template("I have been dealing with ", " for a week")
  const Template22 := Template("Is ", " something to worry about?")
  const Template23 := Template("My ", " is getting unbearable")
  const Template24 := Template("I woke up with ", "")
  const Template25 := Template("Constant ", " keeps me awake")
  const Template26 := Template("I can't shake this ", "")
  const Template27 := Template("Not sure if it is ", " or something else")
  const Template28 := Template("Feeling of ", " throughout the day")
  const Template29 := Template("Recurring ", " every morning")
  const Template30 := Template("Painful ", " on my left side")
  const Template31 := Template("Please tell me what to do about ", "")

  /** `TEMPLATES`, in source order. */
  const Templates: seq<Template> := [
    Template0, Template1, Template2, Template3, Template4, Template5, Template6, Template7,
    Template8, Template9, Template10, Template11, Template12, Template13, Template14,
    Template15, Template16, Template17, Template18, Template19, Template20, Template21,
    Template22, Template23, Template24, Template25, Template26, Template27, Template28,
    Template29, Template30, Template31
  ]


  /** `generate_dataset(num_samples)` up to the data frame: `numSamples` rows,
      each labelled with a key of `SYMPTOM_MAP`. */
  method GenerateDataset(numSamples: int, draws: seq<Draws>) returns (rows: seq<Row>)
    requires numSamples <= |draws|
    requires forall i :: 0 <= i < |draws| ==> ValidDraws(SymptomMap, Keys(SymptomMap), Templates, draws[i])
    ensures |rows| == if numSamples < 0 then 0 else numSamples
    ensures forall i :: 0 <= i < |rows| ==> Sample(SymptomMap, Keys(SymptomMap), Templates, draws[i]) == Some(rows[i])
    ensures forall i :: 0 <= i < |rows| ==> rows[i].labelName in Keys(SymptomMap)
  {
    rows := Generate(SymptomMap, Templates, numSamples, draws);
  }
}
