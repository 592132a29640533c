/** The exercise records both pages list. Each page keeps its own table
    (the workout page knows only the first two); the records themselves are
    identical, so they are written once here. */
module Catalog {
  import opened Types

  const Squat := Exercise(
    "1", "Squat",
    "A compound exercise that targets the quadriceps, hamstrings, and glutes.",
    ["quadriceps", "hamstrings", "glutes"], Beginner,
    "https://images.unsplash.com/photo-1574680178050-55c6a6a96e0a?ixlib=rb-1.2.1&auto=format&fit=crop&w=800&q=80")

  const PushUp := Exercise(
    "2", "Push-up",
    "A bodyweight exercise that targets the chest, shoulders, and triceps.",
    ["chest", "shoulders", "triceps"], Beginner,
    "https://images.unsplash.com/photo-1598971639058-fab3c3109a00?ixlib=rb-1.2.1&auto=format&fit=crop&w=800&q=80")

  const Lunges := Exercise(
    "3", "Lunges",
    "A unilateral exercise that targets the quadriceps, hamstrings, and glutes.",
    ["quadriceps", "hamstrings", "glutes"], Beginner,
    "https://images.unsplash.com/photo-1434682881908-b43d0467b798?ixlib=rb-1.2.1&auto=format&fit=crop&w=800&q=80")
}
