/**
 * The advice tables of ai_summary.py: for a canonical test name and a
 * direction ("Low" or "High"), one sentence of diet or lifestyle advice.
 */
module AdviceRules {
  /** The two advice tables the summary and the guidance read. */
  datatype AdviceTables = AdviceTables(diet: map<string, map<string, string>>, lifestyle: map<string, map<string, string>>)

  /** `_DIET_RULES`. */
  const DietRules: map<string, map<string, string>> := map[
    "hemoglobin" := map["Low" := "Include iron‑rich foods: spinach, lentils, red meat, fortified cereals. Pair with vitamin C sources.", "High" := "Stay well‑hydrated and moderate red‑meat intake. Consult a physician."],
    "total cholesterol" := map["High" := "Reduce saturated fats (fried food, butter). Add oats, nuts, and fatty fish."],
    "ldl" := map["High" := "Cut trans fats, increase soluble fiber (beans, oats), eat more omega‑3 fatty fish."],
    "hdl" := map["Low" := "Add olive oil, avocado, nuts, and regular aerobic exercise to raise HDL levels."],
    "triglycerides" := map["High" := "Limit sugar and refined carbs. Increase omega‑3 (salmon, walnuts). Avoid alcohol."],
    "fasting glucose" := map["High" := "Reduce refined sugars and processed carbs. Eat whole grains, vegetables, lean protein.", "Low" := "Eat small frequent meals with protein and complex carbs to stabilize blood sugar."],
    "hba1c" := map["High" := "Follow a low‑glycaemic diet. Monitor carb portions. Increase fiber intake."],
    "creatinine" := map["High" := "Stay hydrated. Moderate protein intake. Limit sodium and processed foods."],
    "uric acid" := map["High" := "Avoid organ meats, shellfish, alcohol — especially beer. Drink plenty of water."],
    "tsh" := map["High" := "Ensure adequate iodine and selenium. Limit goitrogenic raw cruciferous vegetables.", "Low" := "Avoid excess iodine supplements. Include anti‑inflammatory foods."],
    "vitamin d" := map["Low" := "Get 15–20 min of sunlight daily. Eat fortified dairy, eggs, fatty fish. Consider supplementation."],
    "vitamin b12" := map["Low" := "Eat eggs, dairy, fortified cereals, or consider B12 supplements (especially if vegan)."],
    "iron" := map["Low" := "Add iron‑rich foods (red meat, spinach, lentils) and vitamin C to enhance absorption.", "High" := "Limit red meat and iron supplements. Avoid alcohol. Consult a physician."],
    "ferritin" := map["Low" := "Increase dietary iron with lean meats, beans, and dark leafy greens.", "High" := "Reduce iron‑rich food intake and avoid vitamin C supplements with meals."],
    "sgpt" := map["High" := "Avoid alcohol and processed foods. Eat cruciferous vegetables, garlic, and turmeric."],
    "sgot" := map["High" := "Minimize alcohol, eat a balanced diet, include antioxidant‑rich foods."],
    "calcium" := map["Low" := "Add dairy, fortified plant milks, and leafy greens. Consider vitamin D co‑supplementation.", "High" := "Reduce dairy intake and consult a physician. Stay hydrated."],
    "potassium" := map["Low" := "Eat bananas, oranges, potatoes, and spinach.", "High" := "Limit bananas, potatoes, and tomatoes. Avoid salt substitutes with KCl."],
    "sodium" := map["High" := "Reduce salt, processed, and canned foods. Drink more water.", "Low" := "Add moderate salt. Avoid excessive water intake. Consult a physician."]
  ]

  /** `_LIFESTYLE_RULES`. */
  const LifestyleRules: map<string, map<string, string>> := map[
    "hemoglobin" := map["Low" := "Moderate exercise; avoid intense workouts until levels improve. Prioritize sleep."],
    "total cholesterol" := map["High" := "30 min brisk walking daily. Manage stress. Quit smoking if applicable."],
    "ldl" := map["High" := "Regular aerobic exercise (5×/week, 30 min). Maintain healthy weight."],
    "hdl" := map["Low" := "Regular cardio exercise, quit smoking, maintain a healthy BMI."],
    "triglycerides" := map["High" := "Regular exercise. Limit alcohol. Maintain healthy weight."],
    "fasting glucose" := map["High" := "Daily 30‑min walks. Manage stress. Get 7‑8 h of sleep.", "Low" := "Avoid skipping meals. Keep healthy snacks handy."],
    "hba1c" := map["High" := "Consistent daily exercise. Monitor blood sugar. Reduce stress."],
    "creatinine" := map["High" := "Avoid heavy‑resistance training temporarily. Stay well‑hydrated. Reduce NSAID use."],
    "uric acid" := map["High" := "Stay hydrated. Maintain healthy weight. Avoid crash diets."],
    "tsh" := map["High" := "Regular exercise. Manage stress with yoga or meditation. Ensure adequate sleep.", "Low" := "Gentle, low‑impact exercise. Prioritize rest. Avoid caffeine excess."],
    "vitamin d" := map["Low" := "Spend 15–20 min outdoors in sunlight. Engage in outdoor activities."],
    "esr" := map["High" := "Practice stress management. Sleep 7‑8 h. Consider anti‑inflammatory lifestyle changes."],
    "crp" := map["High" := "Regular moderate exercise. Manage stress. Aim for healthy BMI."],
    "sgpt" := map["High" := "Avoid alcohol. Exercise regularly. Maintain a healthy weight."],
    "sgot" := map["High" := "Limit alcohol. Rest adequately. Manage weight."]
  ]

  /** The tables as ai_summary.py defines them. */
  const Tables: AdviceTables := AdviceTables(DietRules, LifestyleRules)
}
